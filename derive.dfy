/** The front end of `#[derive(Deserialize)]`: which declarations it accepts, and
    the field list (identifier, external name, value type) it derives for a struct
    (rust/parquet/parquet_derive/src/lib.rs lines 36-68, 70-127, 283-285). */
module Derive {
  import opened Wrappers
  import opened Types
  import opened Attributes

  /** A declared field: its identifier (None for a positional field), its
      attributes, and its value type. */
  datatype Field = Field(ident: Option<string>, attrs: seq<Attribute>, ty: ValueType)

  /** The three shapes of a struct body. */
  datatype Fields = Named(named: seq<Field>) | Unnamed(unnamed: seq<Field>) | Unit

  /** The body of a declaration. */
  datatype Data = Struct(fields: Fields) | Enum(variants: nat) | Union

  /** A declaration the derive is applied to. */
  datatype DeriveInput = DeriveInput(ident: string, data: Data)

  /** What the parser produces: the fields of a struct with named fields all have
      identifiers, and positional fields have none. */
  predicate WellFormed(input: DeriveInput) {
    match input.data
    case Struct(Named(fields)) => forall i :: 0 <= i < |fields| ==> fields[i].ident.Some?
    case Struct(Unnamed(fields)) => forall i :: 0 <= i < |fields| ==> fields[i].ident.None?
    case _ => true
  }

  /** `collect::<Result<Vec<_>, _>>()` over the fields: each field's name as
      `resolve` gives it, in order, or the error of the first field it fails on. */
  function Collect(fields: seq<Field>, resolve: Field -> Result<string, DeriveError>)
    : (r: Result<seq<string>, DeriveError>)
    ensures r.Ok? ==> |r.value| == |fields|
  {
    if fields == [] then Ok([])
    else
      match Collect(fields[..|fields| - 1], resolve)
      case Err(e) => Err(e)
      case Ok(names) =>
        match resolve(fields[|fields| - 1])
        case Err(e) => Err(e)
        case Ok(s) => Ok(names + [s])
  }

  /** The external name of one field, from its identifier and attributes. */
  function Resolve(f: Field): Result<string, DeriveError> {
    FieldRename(f.ident, f.attrs)
  }

  /** The external names of all fields, in order; the first field whose name cannot
      be resolved decides the error. */
  function Renames(fields: seq<Field>): (r: Result<seq<string>, DeriveError>)
    ensures r.Ok? ==> |r.value| == |fields|
  {
    Collect(fields, Resolve)
  }

  /** The field descriptors of a struct `name` whose fields have the given external
      names; positional fields abort (`unwrap` of a missing identifier). */
  function Describe(name: string, fields: seq<Field>, externals: seq<string>): (r: Result<ValueType, DeriveError>)
    requires |externals| == |fields|
    ensures r.Ok? <==> forall i :: 0 <= i < |fields| ==> fields[i].ident.Some?
    ensures r.Err? ==> r.error == Abort(UnwrapNone)
    ensures r.Ok? ==> r.value.Record? && r.value.name == name && |r.value.fields| == |fields| &&
                      forall i :: 0 <= i < |fields| ==>
                        Some(r.value.fields[i].name) == fields[i].ident &&
                        r.value.fields[i].external == externals[i] && r.value.fields[i].ty == fields[i].ty
  {
    if exists i :: 0 <= i < |fields| && fields[i].ident.None? then Err(Abort(UnwrapNone))
    else Ok(Record(name, seq(|fields|, i requires 0 <= i < |fields| =>
                                  FieldDesc(fields[i].ident.value, externals[i], fields[i].ty))))
  }

  /** `new_impl`: resolve every field's external name, then describe the fields. */
  function NewImpl(name: string, fields: seq<Field>): (r: Result<ValueType, DeriveError>)
    ensures r.Ok? ==> r.value.Record? && r.value.name == name && |r.value.fields| == |fields|
  {
    match Renames(fields)
    case Err(e) => Err(e)
    case Ok(externals) =>
      RenamesOk(fields);
      Describe(name, fields, externals)
  }

  /** The derive entry point: structs of every shape go to `new_impl`; unions and
      enums abort. */
  function Derive(input: DeriveInput): (r: Result<ValueType, DeriveError>)
    ensures r.Ok? ==> input.data.Struct? && r.value.Record? && r.value.name == input.ident
  {
    match input.data
    case Struct(Named(fields)) => NewImpl(input.ident, fields)
    case Struct(Unit) => NewImpl(input.ident, [])
    case Struct(Unnamed(fields)) => NewImpl(input.ident, fields)
    case Enum(variants) =>
      if variants == 0 then Err(Abort("#[derive(Deserialize)] cannot be implemented for enums with zero variants"))
      else Err(Abort("not implemented"))
    case Union => Err(Abort("doesn't work with unions yet"))
  }

  /** The names are collected exactly when every field's name resolves, and then
      the i-th name is the i-th field's. */
  lemma RenamesOk(fields: seq<Field>)
    ensures Renames(fields).Ok? <==>
              forall i :: 0 <= i < |fields| ==> FieldRename(fields[i].ident, fields[i].attrs).Ok?
    ensures Renames(fields).Ok? ==>
              |Renames(fields).value| == |fields| &&
              forall i :: 0 <= i < |fields| ==>
                FieldRename(fields[i].ident, fields[i].attrs) == Ok(Renames(fields).value[i])
  {
    CollectOk(fields, Resolve);
    assert forall i :: 0 <= i < |fields| ==> Resolve(fields[i]) == FieldRename(fields[i].ident, fields[i].attrs);
  }

  /** When collecting fails, the error is that of the first field whose name does
      not resolve. */
  lemma RenamesFirstError(fields: seq<Field>, k: nat)
    requires k < |fields|
    requires forall i :: 0 <= i < k ==> FieldRename(fields[i].ident, fields[i].attrs).Ok?
    requires FieldRename(fields[k].ident, fields[k].attrs).Err?
    ensures Renames(fields) == Err(FieldRename(fields[k].ident, fields[k].attrs).error)
  {
    assert forall i :: 0 <= i < k ==> Resolve(fields[i]).Ok?;
    CollectFirstError(fields, k, Resolve);
  }

  /** Collecting succeeds exactly when every field resolves, and then the i-th name
      is the i-th field's. */
  lemma CollectOk(fields: seq<Field>, resolve: Field -> Result<string, DeriveError>)
    ensures Collect(fields, resolve).Ok? <==> forall i :: 0 <= i < |fields| ==> resolve(fields[i]).Ok?
    ensures Collect(fields, resolve).Ok? ==>
              forall i :: 0 <= i < |fields| ==> resolve(fields[i]) == Ok(Collect(fields, resolve).value[i])
  {
    if forall i :: 0 <= i < |fields| ==> resolve(fields[i]).Ok? {
      CollectAllOk(fields, resolve);
    }
    if Collect(fields, resolve).Ok? {
      CollectOkEach(fields, resolve, Collect(fields, resolve).value);
    }
  }

  /** Collected names are, one by one, the fields' resolved names. */
  lemma {:induction false} CollectOkEach(fields: seq<Field>, resolve: Field -> Result<string, DeriveError>,
                                         names: seq<string>)
    requires Collect(fields, resolve) == Ok(names)
    ensures forall i :: 0 <= i < |fields| ==> resolve(fields[i]) == Ok(names[i])
    decreases |fields|
  {
    if fields != [] {
      var n := |fields| - 1;
      var prefix := fields[..n];
      var pnames := Collect(prefix, resolve).value;
      CollectOkEach(prefix, resolve, pnames);
      assert forall i :: 0 <= i < n ==> prefix[i] == fields[i] && names[i] == pnames[i];
    }
  }

  /** When every field resolves, the names are collected. */
  lemma {:induction false} CollectAllOk(fields: seq<Field>, resolve: Field -> Result<string, DeriveError>)
    requires forall i :: 0 <= i < |fields| ==> resolve(fields[i]).Ok?
    ensures Collect(fields, resolve).Ok?
    decreases |fields|
  {
    if fields != [] {
      var n := |fields| - 1;
      assert forall i :: 0 <= i < n ==> fields[..n][i] == fields[i];
      CollectAllOk(fields[..n], resolve);
    }
  }

  /** When collecting fails, the error is that of the first field that fails. */
  lemma CollectFirstError(fields: seq<Field>, k: nat, resolve: Field -> Result<string, DeriveError>)
    requires k < |fields|
    requires forall i :: 0 <= i < k ==> resolve(fields[i]).Ok?
    requires resolve(fields[k]).Err?
    ensures Collect(fields, resolve) == Err(resolve(fields[k]).error)
  {
    assert forall i :: 0 <= i < k ==> fields[..k][i] == fields[i];
    CollectAllOk(fields[..k], resolve);
    CollectErrAt(fields, k, resolve);
  }

  /** When the first k fields are collected and field k fails, its error is the
      result. */
  lemma {:induction false} CollectErrAt(fields: seq<Field>, k: nat, resolve: Field -> Result<string, DeriveError>)
    requires k < |fields| && Collect(fields[..k], resolve).Ok? && resolve(fields[k]).Err?
    ensures Collect(fields, resolve) == Err(resolve(fields[k]).error)
    decreases |fields|
  {
    var n := |fields| - 1;
    if k < n {
      assert fields[..n][..k] == fields[..k] && fields[..n][k] == fields[k];
      CollectErrAt(fields[..n], k, resolve);
    }
  }

  /** A struct derives exactly when all its fields have identifiers and resolvable
      names; the derived record keeps the struct's name and lists, in declaration
      order, each field's identifier, external name and value type. */
  lemma DeriveStruct(input: DeriveInput, fields: seq<Field>)
    requires input.data == Struct(Named(fields)) || input.data == Struct(Unnamed(fields))
          || (input.data == Struct(Unit) && fields == [])
    ensures Derive(input).Ok? <==>
              forall i :: 0 <= i < |fields| ==>
                fields[i].ident.Some? && FieldRename(fields[i].ident, fields[i].attrs).Ok?
    ensures Derive(input).Ok? ==>
              var t := Derive(input).value;
              t.Record? && t.name == input.ident && |t.fields| == |fields| &&
              forall i :: 0 <= i < |fields| ==>
                t.fields[i].ty == fields[i].ty &&
                Some(t.fields[i].name) == fields[i].ident &&
                FieldRename(fields[i].ident, fields[i].attrs) == Ok(t.fields[i].external)
  {
    RenamesOk(fields);
    if Renames(fields).Ok? {
      var r := Derive(input);
      if forall i :: 0 <= i < |fields| ==> fields[i].ident.Some? {
        assert r == Describe(input.ident, fields, Renames(fields).value);
      }
    }
  }

  /** A struct with positional fields never derives: each such field either fails
      on its attributes or aborts on its missing identifier. */
  lemma TupleStructRejected(input: DeriveInput, fields: seq<Field>)
    requires WellFormed(input) && input.data == Struct(Unnamed(fields)) && |fields| > 0
    ensures Derive(input).Err?
  {
    DeriveStruct(input, fields);
  }

  /** Unions and enums are rejected up front. */
  lemma EnumsAndUnionsRejected(input: DeriveInput)
    requires !input.data.Struct?
    ensures Derive(input).Err? && Derive(input).error.Abort?
  {
  }

  /** `#[parquet(rename = "cnt")] count: i64` is looked up as `cnt`. */
  lemma RenameExample(ty: ValueType)
    ensures Derive(DeriveInput("Counter", Struct(Named([Field(Some("count"),
              [Attribute(["parquet"], Some(List("parquet", [RenameItem("cnt")])))], ty)]))))
            == Ok(Record("Counter", [FieldDesc("count", "cnt", ty)]))
  {
    var attrs := [Attribute(["parquet"], Some(List("parquet", [RenameItem("cnt")])))];
    var f := Field(Some("count"), attrs, ty);
    var input := DeriveInput("Counter", Struct(Named([f])));
    assert attrs[..0] == [];
    assert MetaItems(attrs) == [RenameItem("cnt")];
    FieldRenameResolves(f.ident, attrs, "cnt");
    assert FieldRename(f.ident, f.attrs) == Ok("cnt");
    assert [f][..0] == [] && [f][0] == f;
    assert Renames([]) == Ok([]);
    assert Renames([f]) == Ok([] + ["cnt"]);
    var descs := seq(1, i requires 0 <= i < 1 => FieldDesc([f][i].ident.value, ["cnt"][i], [f][i].ty));
    assert descs == [FieldDesc("count", "cnt", ty)];
    assert [] + ["cnt"] == ["cnt"];
    assert !exists i :: 0 <= i < 1 && [f][i].ident.None?;
    assert Describe("Counter", [f], ["cnt"]) == Ok(Record("Counter", descs));
    assert NewImpl("Counter", [f]) == Describe("Counter", [f], ["cnt"]);
    assert Derive(input) == NewImpl("Counter", [f]);
  }

  /** `unraw`: the identifier with every leading `r#` removed. */
  function Unraw(s: string): (r: string)
    ensures |r| <= |s| && r == s[|s| - |r|..]
    ensures !(|r| >= 2 && r[..2] == "r#")
    decreases |s|
  {
    if |s| >= 2 && s[..2] == "r#" then Unraw(s[2..]) else s
  }

  /** `r#` written k times. */
  function RawPrefix(k: nat): string
  {
    if k == 0 then "" else "r#" + RawPrefix(k - 1)
  }

  /** One more leading `r#` is one more whole prefix. */
  lemma UnrawPeel(s: string, k: nat)
    requires |s| >= 2 && s[..2] == "r#"
    requires s[2..] == RawPrefix(k) + Unraw(s[2..])
    ensures s == RawPrefix(k + 1) + Unraw(s)
  {
    var rest := Unraw(s[2..]);
    assert Unraw(s) == rest;
    assert s == "r#" + (RawPrefix(k) + rest);
    assert "r#" + (RawPrefix(k) + rest) == ("r#" + RawPrefix(k)) + rest;
  }

  /** What `unraw` removes is a run of whole `r#` prefixes. */
  lemma {:induction false} UnrawRemovesPrefixes(s: string) returns (k: nat)
    ensures s == RawPrefix(k) + Unraw(s)
    decreases |s|
  {
    if |s| >= 2 && s[..2] == "r#" {
      var k' := UnrawRemovesPrefixes(s[2..]);
      UnrawPeel(s, k');
      k := k' + 1;
    } else {
      k := 0;
      assert Unraw(s) == s;
      assert RawPrefix(0) + s == s;
    }
  }

  /** Removing the prefixes twice removes nothing more. */
  lemma UnrawIdempotent(s: string)
    ensures Unraw(Unraw(s)) == Unraw(s)
  {
  }
}
