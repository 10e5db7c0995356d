/** The `#[parquet(...)]` field attributes and the resolution of a field's external
    name from them (rust/parquet/parquet_derive/src/lib.rs, `new_impl` lines 81-118,
    `get_parquet_meta_items`, `get_lit_str`). */
module Attributes {
  import opened Wrappers

  /** A literal as the attribute parser reads it. */
  datatype Lit =
    | Str(value: string)
    | ByteStr(bytes: seq<bv8>)
    | Byte(byte: bv8)
    | Char(c: char)
    | Int(i: int)
    | Float(repr: string)
    | Bool(flag: bool)
    | Verbatim(text: string)

  /** The meta forms `word`, `name(nested, ...)` and `name = lit`. */
  datatype Meta =
    | Word(ident: string)
    | List(ident: string, nested: seq<NestedMeta>)
    | NameValue(ident: string, lit: Lit)
  {
    /** The identifier a meta item is reported by. */
    function Name(): string {
      ident
    }
  }

  /** An item inside a meta list: a meta, or a bare literal. */
  datatype NestedMeta = MetaItem(meta: Meta) | LitItem(lit: Lit)

  /** An attribute on a field: the segments of its path, and what interpreting its
      tokens as a meta gives (None when they do not form one). */
  datatype Attribute = Attribute(path: seq<string>, meta: Option<Meta>)

  /** The errors (and aborts) of deriving the code for a declaration. */
  datatype DeriveError =
    | DuplicateRename
    | UnknownAttribute(name: string)
    | UnexpectedLiteral
    | NotAString(key: string)
    | Abort(msg: string)

  /** The items of a `#[parquet(...)]` list attribute; every other attribute, and a
      `parquet` attribute that is not a list, yields nothing. */
  function ParquetMetaItems(attr: Attribute): (r: Option<seq<NestedMeta>>)
    ensures r.Some? <==> attr.path == ["parquet"] && attr.meta.Some? && attr.meta.value.List?
    ensures r.Some? ==> r.value == attr.meta.value.nested
  {
    if |attr.path| == 1 && attr.path[0] == "parquet" then
      match attr.meta
      case Some(List(_, nested)) => Some(nested)
      case _ => None
    else
      None
  }

  /** The string of a literal that must be a string literal. */
  function LitStr(key: string, lit: Lit): (r: Result<string, DeriveError>)
    ensures r.Ok? <==> lit.Str?
    ensures r.Ok? ==> r.value == lit.value
    ensures r.Err? ==> r.error == NotAString(key)
  {
    if lit.Str? then Ok(lit.value) else Err(NotAString(key))
  }

  /** The items of all parquet attributes of a field, in order. */
  function MetaItems(attrs: seq<Attribute>): seq<NestedMeta>
  {
    if attrs == [] then []
    else MetaItems(attrs[..|attrs| - 1]) + ParquetMetaItems(attrs[|attrs| - 1]).GetOr([])
  }

  /** One item's effect on the rename found so far. */
  function Step(rename: Option<string>, item: NestedMeta): (r: Result<Option<string>, DeriveError>)
    ensures r.Ok? <==> rename.None? && item.MetaItem? && item.meta.NameValue? &&
                       item.meta.ident == "rename" && item.meta.lit.Str?
    ensures r.Ok? ==> r.value == Some(item.meta.lit.value)
    ensures item.LitItem? ==> r == Err(UnexpectedLiteral)
    ensures item.MetaItem? && !(item.meta.NameValue? && item.meta.ident == "rename") ==>
              r == Err(UnknownAttribute(item.meta.ident))
    ensures item.MetaItem? && item.meta.NameValue? && item.meta.ident == "rename" && !item.meta.lit.Str? ==>
              r == Err(NotAString("rename"))
    ensures rename.Some? && item.MetaItem? && item.meta.NameValue? && item.meta.ident == "rename" && item.meta.lit.Str? ==>
              r == Err(DuplicateRename)
  {
    match item
    case MetaItem(m) =>
      if m.NameValue? && m.ident == "rename" then
        match LitStr(m.ident, m.lit)
        case Err(e) => Err(e)
        case Ok(s) => if rename.Some? then Err(DuplicateRename) else Ok(Some(s))
      else
        Err(UnknownAttribute(m.Name()))
    case LitItem(_) => Err(UnexpectedLiteral)
  }

  /** The rename after scanning `items` in order; the first error stops the scan. */
  function Scan(items: seq<NestedMeta>): Result<Option<string>, DeriveError>
  {
    if items == [] then Ok(None)
    else
      match Scan(items[..|items| - 1])
      case Err(e) => Err(e)
      case Ok(rename) => Step(rename, items[|items| - 1])
  }

  const UnwrapNone := "called `Option::unwrap()` on a `None` value"

  /** The external name of a field with identifier `ident` (None for a positional
      field) and attributes `attrs`. */
  function FieldRename(ident: Option<string>, attrs: seq<Attribute>): (r: Result<string, DeriveError>)
    ensures r.Ok? ==> MetaItems(attrs) == [RenameItem(r.value)] || (MetaItems(attrs) == [] && ident == Some(r.value))
    ensures MetaItems(attrs) == [] ==> r == if ident.Some? then Ok(ident.value) else Err(Abort(UnwrapNone))
  {
    match Scan(MetaItems(attrs))
    case Err(e) => Err(e)
    case Ok(Some(s)) =>
      ScanAccepts(MetaItems(attrs));
      Ok(s)
    case Ok(None) =>
      ScanAccepts(MetaItems(attrs));
      if ident.Some? then Ok(ident.value) else Err(Abort(UnwrapNone))
  }

  /** The only item a field may carry: one `rename = "s"`. */
  function RenameItem(s: string): NestedMeta {
    MetaItem(NameValue("rename", Str(s)))
  }

  /** Once the scan has failed, later items do not change its error. */
  lemma {:induction false} ScanErrSticky(a: seq<NestedMeta>, b: seq<NestedMeta>)
    requires Scan(a).Err?
    ensures Scan(a + b) == Scan(a)
    decreases |b|
  {
    if b != [] {
      var n := |b| - 1;
      assert (a + b)[..|a + b| - 1] == a + b[..n];
      ScanErrSticky(a, b[..n]);
    } else {
      assert a + b == a;
    }
  }

  /** The scan accepts exactly two item lists: none at all, and a single string
      `rename`; any other item, a second rename or a non-string value is an error. */
  lemma {:induction false} ScanAccepts(items: seq<NestedMeta>)
    ensures Scan(items) == Ok(None) <==> items == []
    ensures forall s :: Scan(items) == Ok(Some(s)) <==> items == [RenameItem(s)]
    decreases |items|
  {
    if items != [] {
      var n := |items| - 1;
      ScanAccepts(items[..n]);
      if n > 0 {
        // the prefix either failed, or already holds a rename, or is empty (impossible, n > 0)
        assert Scan(items[..n]) != Ok(None);
      }
    }
  }

  /** A field's external name is its single string `rename` when it has one, and
      otherwise its identifier; every other combination of parquet items fails. */
  lemma FieldRenameResolves(ident: Option<string>, attrs: seq<Attribute>, s: string)
    ensures FieldRename(ident, attrs) == Ok(s) <==>
              MetaItems(attrs) == [RenameItem(s)] || (MetaItems(attrs) == [] && ident == Some(s))
  {
    ScanAccepts(MetaItems(attrs));
  }

  /** A second `rename` whose value is not a string is reported as a non-string
      value, not as a duplicate: the value is checked first. */
  lemma NonStringBeforeDuplicate(s: string, lit: Lit)
    requires !lit.Str?
    ensures Scan([RenameItem(s), MetaItem(NameValue("rename", lit))]) == Err(NotAString("rename"))
  {
    var items := [RenameItem(s), MetaItem(NameValue("rename", lit))];
    assert items[..1] == [RenameItem(s)];
    assert [RenameItem(s)][..0] == [];
    assert Scan(items[..1]) == Ok(Some(s));
  }

  /** A second string `rename`, a key other than `rename` (reported by name) and a
      bare literal are each rejected with their own error. */
  lemma ScanRejects(s: string, t: string, key: string, l: Lit)
    ensures Scan([RenameItem(s), RenameItem(t)]) == Err(DuplicateRename)
    ensures key != "rename" ==> Scan([MetaItem(NameValue(key, l))]) == Err(UnknownAttribute(key))
    ensures Scan([LitItem(l)]) == Err(UnexpectedLiteral)
  {
    assert [RenameItem(s)][..0] == [] && [MetaItem(NameValue(key, l))][..0] == [] && [LitItem(l)][..0] == [];
    ScanLast([RenameItem(s)], RenameItem(t));
  }

  /** Attributes other than the single-segment `parquet` list are skipped. */
  lemma {:induction false} ForeignAttributesIgnored(attrs: seq<Attribute>, other: Attribute)
    requires ParquetMetaItems(other).None?
    ensures MetaItems(attrs + [other]) == MetaItems(attrs)
  {
    assert (attrs + [other])[..|attrs|] == attrs;
  }

  /** MetaItems distributes over concatenation of attribute lists. */
  lemma {:induction false} MetaItemsAppend(a: seq<Attribute>, b: seq<Attribute>)
    ensures MetaItems(a + b) == MetaItems(a) + MetaItems(b)
    decreases |b|
  {
    if b == [] {
      assert a + b == a;
    } else {
      var n := |b| - 1;
      var last := ParquetMetaItems(b[n]).GetOr([]);
      assert (a + b)[..|a + b| - 1] == a + b[..n] && (a + b)[|a + b| - 1] == b[n];
      assert MetaItems(a + b) == MetaItems(a + b[..n]) + last;
      MetaItemsAppend(a, b[..n]);
      assert MetaItems(b) == MetaItems(b[..n]) + last;
      assert MetaItems(a) + MetaItems(b[..n]) + last == MetaItems(a) + (MetaItems(b[..n]) + last);
    }
  }

  /** The items of the first i + 1 attributes extend those of the first i. */
  lemma MetaItemsSnoc(attrs: seq<Attribute>, i: nat)
    requires i < |attrs|
    ensures MetaItems(attrs[..i + 1]) == MetaItems(attrs[..i]) + ParquetMetaItems(attrs[i]).GetOr([])
  {
    assert attrs[..i + 1][..i] == attrs[..i];
  }

  /** The items of a field are those before attribute i, then those of attribute i,
      then those after it. */
  lemma MetaItemsAround(attrs: seq<Attribute>, i: nat, items: seq<NestedMeta>)
    requires i < |attrs| && ParquetMetaItems(attrs[i]) == Some(items)
    ensures MetaItems(attrs) == MetaItems(attrs[..i]) + items + MetaItems(attrs[i + 1..])
  {
    var a, b := attrs[..i + 1], attrs[i + 1..];
    assert a + b == attrs;
    MetaItemsAppend(a, b);
    MetaItemsSnoc(attrs, i);
  }

  /** An error in the scan of a prefix of an attribute's items survives whatever
      follows that attribute. */
  lemma ScanErrInside(p: seq<NestedMeta>, items: seq<NestedMeta>, rest: seq<NestedMeta>, j: nat, e: DeriveError)
    requires j < |items|
    requires Scan(p + items[..j + 1]) == Err(e)
    ensures Scan(p + items + rest) == Err(e)
  {
    assert p + items + rest == (p + items[..j + 1]) + (items[j + 1..] + rest) by {
      assert items == items[..j + 1] + items[j + 1..];
    }
    ScanErrSticky(p + items[..j + 1], items[j + 1..] + rest);
  }

  /** An error met in the items of attribute i is the error of the whole scan. */
  lemma AttributeError(attrs: seq<Attribute>, i: nat, items: seq<NestedMeta>, e: DeriveError)
    requires i < |attrs| && ParquetMetaItems(attrs[i]) == Some(items)
    requires Scan(MetaItems(attrs[..i]) + items) == Err(e)
    ensures Scan(MetaItems(attrs)) == Err(e)
  {
    MetaItemsAround(attrs, i, items);
    ScanErrSticky(MetaItems(attrs[..i]) + items, MetaItems(attrs[i + 1..]));
  }

  /** Scanning one more item applies one more step. */
  lemma ScanStep(p: seq<NestedMeta>, items: seq<NestedMeta>, j: nat)
    requires j < |items| && Scan(p + items[..j]).Ok?
    ensures Scan(p + items[..j + 1]) == Step(Scan(p + items[..j]).value, items[j])
  {
    assert p + items[..j + 1] == (p + items[..j]) + [items[j]];
    ScanLast(p + items[..j], items[j]);
  }

  /** Scanning one more item at the end applies one more step. */
  lemma ScanLast(a: seq<NestedMeta>, x: NestedMeta)
    requires Scan(a).Ok?
    ensures Scan(a + [x]) == Step(Scan(a).value, x)
  {
    assert (a + [x])[..|a + [x]| - 1] == a;
  }

  /** The inner loop of `new_impl`'s rename search: the items of one parquet
      attribute, in order, after the items `done` already scanned; the first bad
      item ends it with its error. */
  method ScanItems(ghost done: seq<NestedMeta>, items: seq<NestedMeta>, rename0: Option<string>)
    returns (r: Result<Option<string>, DeriveError>)
    requires Scan(done) == Ok(rename0)
    ensures r == Scan(done + items)
  {
    var rename := rename0;
    var j := 0;
    assert done + items[..0] == done;
    while j < |items|
      invariant 0 <= j <= |items|
      invariant Scan(done + items[..j]) == Ok(rename)
    {
      ScanStep(done, items, j);
      match items[j] {
        case MetaItem(m) =>
          if m.NameValue? && m.ident == "rename" {
            var s := LitStr(m.ident, m.lit);
            if s.Err? {
              ScanErrInside(done, items, [], j, s.error);
              assert done + items + [] == done + items;
              return Err(s.error);
            }
            if rename.Some? {
              ScanErrInside(done, items, [], j, DuplicateRename);
              assert done + items + [] == done + items;
              return Err(DuplicateRename);
            }
            rename := Some(s.value);
          } else {
            ScanErrInside(done, items, [], j, UnknownAttribute(m.Name()));
            assert done + items + [] == done + items;
            return Err(UnknownAttribute(m.Name()));
          }
        case LitItem(_) =>
          ScanErrInside(done, items, [], j, UnexpectedLiteral);
          assert done + items + [] == done + items;
          return Err(UnexpectedLiteral);
      }
      j := j + 1;
    }
    assert items[..j] == items;
    r := Ok(rename);
  }

  /** The loop of `new_impl` that finds a field's `rename`: every parquet attribute,
      every item in it, in order; the first bad item ends it with its error. */
  method ResolveRename(ident: Option<string>, attrs: seq<Attribute>) returns (r: Result<string, DeriveError>)
    ensures r == FieldRename(ident, attrs)
  {
    var rename: Option<string> := None;
    var i := 0;
    while i < |attrs|
      invariant 0 <= i <= |attrs|
      invariant Scan(MetaItems(attrs[..i])) == Ok(rename)
    {
      ghost var done := MetaItems(attrs[..i]);
      MetaItemsSnoc(attrs, i);
      var metaItems := ParquetMetaItems(attrs[i]);
      if metaItems.Some? {
        var items := metaItems.value;
        var scanned := ScanItems(done, items, rename);
        if scanned.Err? {
          AttributeError(attrs, i, items, scanned.error);
          return Err(scanned.error);
        }
        rename := scanned.value;
      } else {
        assert MetaItems(attrs[..i + 1]) == done;
      }
      i := i + 1;
    }
    assert attrs[..i] == attrs;
    if rename.Some? {
      r := Ok(rename.value);
    } else if ident.Some? {
      r := Ok(ident.value);
    } else {
      r := Err(Abort(UnwrapNone));
    }
  }
}
