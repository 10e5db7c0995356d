/** The generated reader of a derived struct and its `Reader` implementation
    (rust/parquet/parquet_derive/src/lib.rs lines 171-204): one sub-reader per
    field; `read` and `advance_columns` step every sub-reader in declaration order
    and stop at the first error; the queries ask the first field only. */
module Runtime {
  import opened Wrappers
  import opened Types

  /** A value read from a leaf column. */
  datatype Datum = Null | Bool(flag: bool) | Int(i: int) | Bytes(bytes: seq<bv8>)

  /** A record as read: a leaf value, or a struct's field values in declaration order. */
  datatype Value = Scalar(datum: Datum) | Struct(fields: seq<Value>)

  /** A leaf reader: the column at `path`, opened with the definition and repetition
      levels handed down to it, at row `row` of that column. The derived code opens
      no column itself: the leaf readers of the parquet crate do, and this model
      starts each one at row 0. Only the leaf operations move `row`, and it is what
      lets a later `read` see a different value. */
  datatype Column = Column(path: seq<string>, tag: LeafTag, defLevel: int, repLevel: int, row: nat)

  /** A sub-reader: a leaf column reader, or the reader of a nested struct with one
      sub-reader per field. */
  datatype SubReader = LeafReader(column: Column) | GroupReader(fields: seq<SubReader>)

  /** What the leaf column readers do, which lives outside the derived code: `read`
      and `advance` both take the column by mutable reference, so each returns the
      column's new state beside its outcome. */
  datatype ColumnOps = ColumnOps(
    read: Column -> (Result<Datum, ParquetError>, Column),
    advance: Column -> (Result<(), ParquetError>, Column),
    hasNext: Column -> bool,
    defLevel: Column -> int,
    repLevel: Column -> int)

  /** `read` of a sub-reader: its value, and its new state. */
  function ReadSub(ops: ColumnOps, s: SubReader): (r: (Result<Value, ParquetError>, SubReader))
    ensures r.1.LeafReader? == s.LeafReader?
    ensures s.GroupReader? ==> |r.1.fields| == |s.fields|
    ensures r.0.Ok? ==> (r.0.value.Struct? <==> s.GroupReader?)
    ensures r.0.Ok? && s.GroupReader? ==> |r.0.value.fields| == |s.fields|
    decreases s
  {
    match s
    case LeafReader(c) =>
      var (r, c') := ops.read(c);
      (if r.Ok? then Ok(Scalar(r.value)) else Err(r.error), LeafReader(c'))
    case GroupReader(fs) =>
      var (r, fs') := ReadFields(ops, fs);
      (if r.Ok? then Ok(Struct(r.value)) else Err(r.error), GroupReader(fs'))
  }

  /** `read` of every field in order, stopping at the first error; the fields after
      the failing one are not touched. */
  function ReadFields(ops: ColumnOps, fs: seq<SubReader>): (r: (Result<seq<Value>, ParquetError>, seq<SubReader>))
    ensures |r.1| == |fs|
    ensures r.0.Ok? ==> |r.0.value| == |fs|
    decreases fs
  {
    if fs == [] then (Ok([]), [])
    else
      var n := |fs| - 1;
      var (r, done) := ReadFields(ops, fs[..n]);
      if r.Err? then (r, done + [fs[n]])
      else
        var (x, s') := ReadSub(ops, fs[n]);
        (if x.Err? then Err(x.error) else Ok(r.value + [x.value]), done + [s'])
  }

  /** `advance_columns` of a sub-reader: its outcome, and its new state. */
  function AdvanceSub(ops: ColumnOps, s: SubReader): (r: (Result<(), ParquetError>, SubReader))
    ensures r.1.LeafReader? == s.LeafReader?
    ensures s.GroupReader? ==> |r.1.fields| == |s.fields|
    decreases s
  {
    match s
    case LeafReader(c) =>
      var (r, c') := ops.advance(c);
      (r, LeafReader(c'))
    case GroupReader(fs) =>
      var (r, fs') := AdvanceFields(ops, fs);
      (r, GroupReader(fs'))
  }

  /** `advance_columns` of every field in order, stopping at the first error. */
  function AdvanceFields(ops: ColumnOps, fs: seq<SubReader>): (r: (Result<(), ParquetError>, seq<SubReader>))
    ensures |r.1| == |fs|
    decreases fs
  {
    if fs == [] then (Ok(()), [])
    else
      var n := |fs| - 1;
      var (r, done) := AdvanceFields(ops, fs[..n]);
      if r.Err? then (r, done + [fs[n]])
      else
        var (x, s') := AdvanceSub(ops, fs[n]);
        (x, done + [s'])
  }

  const EmptyDefLevel := "Current definition level: empty group reader"
  const EmptyRepLevel := "Current repetition level: empty group reader"

  /** `has_next` of a sub-reader; a struct with no fields always has a next one. */
  function HasNextSub(ops: ColumnOps, s: SubReader): (r: bool)
    ensures r == (FirstColumn(s).None? || ops.hasNext(FirstColumn(s).value))
    decreases s
  {
    match s
    case LeafReader(c) => ops.hasNext(c)
    case GroupReader(fs) => if fs == [] then true else HasNextSub(ops, fs[0])
  }

  /** `current_def_level` of a sub-reader; a struct with no fields aborts. */
  function DefLevelSub(ops: ColumnOps, s: SubReader): (r: Result<int, ParquetError>)
    ensures r == if FirstColumn(s).Some? then Ok(ops.defLevel(FirstColumn(s).value)) else Err(Panic(EmptyDefLevel))
    decreases s
  {
    match s
    case LeafReader(c) => Ok(ops.defLevel(c))
    case GroupReader(fs) => if fs == [] then Err(Panic(EmptyDefLevel)) else DefLevelSub(ops, fs[0])
  }

  /** `current_rep_level` of a sub-reader; a struct with no fields aborts. */
  function RepLevelSub(ops: ColumnOps, s: SubReader): (r: Result<int, ParquetError>)
    ensures r == if FirstColumn(s).Some? then Ok(ops.repLevel(FirstColumn(s).value)) else Err(Panic(EmptyRepLevel))
    decreases s
  {
    match s
    case LeafReader(c) => Ok(ops.repLevel(c))
    case GroupReader(fs) => if fs == [] then Err(Panic(EmptyRepLevel)) else RepLevelSub(ops, fs[0])
  }

  /** The first-field column under a sub-reader: the column reached by following
      first fields; None when that path ends in a struct with no fields, even if a
      later field holds columns. */
  function FirstColumn(s: SubReader): Option<Column>
    decreases s
  {
    match s
    case LeafReader(c) => Some(c)
    case GroupReader(fs) => if fs == [] then None else FirstColumn(fs[0])
  }

  /** The columns under a sub-reader, left to right. */
  function Columns(s: SubReader): seq<Column>
    decreases s
  {
    match s
    case LeafReader(c) => [c]
    case GroupReader(fs) => ColumnsOf(fs)
  }

  /** The columns under a list of sub-readers, left to right. */
  function ColumnsOf(fs: seq<SubReader>): seq<Column>
    decreases fs
  {
    if fs == [] then [] else ColumnsOf(fs[..|fs| - 1]) + Columns(fs[|fs| - 1])
  }

  /** The first-field column is one of the reader's columns. */
  lemma {:induction false} FirstColumnIsAColumn(s: SubReader)
    requires FirstColumn(s).Some?
    ensures FirstColumn(s).value in Columns(s)
    decreases s
  {
    match s
    case LeafReader(_) =>
    case GroupReader(fs) =>
      FirstColumnIsAColumn(fs[0]);
      ColumnsOfContains(fs, 0);
  }

  /** The columns of each field are among the columns of the field list. */
  lemma {:induction false} ColumnsOfContains(fs: seq<SubReader>, i: nat)
    requires i < |fs|
    ensures forall c :: c in Columns(fs[i]) ==> c in ColumnsOf(fs)
    decreases |fs|
  {
    var n := |fs| - 1;
    if i < n {
      ColumnsOfContains(fs[..n], i);
    }
  }

  /** Every column of the field list is a column of one of the fields. */
  lemma {:induction false} ColumnsOfMember(fs: seq<SubReader>, c: Column) returns (i: nat)
    requires c in ColumnsOf(fs)
    ensures i < |fs| && c in Columns(fs[i])
    decreases |fs|
  {
    var n := |fs| - 1;
    if c in Columns(fs[n]) {
      i := n;
    } else {
      i := ColumnsOfMember(fs[..n], c);
    }
  }

  /** A successful `read` of a field list: one value per field, each the value that
      field's own sub-reader reads, and each field in the state its read left. */
  lemma {:induction false} ReadFieldsOk(ops: ColumnOps, fs: seq<SubReader>)
    requires ReadFields(ops, fs).0.Ok?
    ensures var (r, fs') := ReadFields(ops, fs);
            |r.value| == |fs| &&
            forall i :: 0 <= i < |fs| ==> ReadSub(ops, fs[i]) == (Ok(r.value[i]), fs'[i])
    decreases |fs|
  {
    if fs != [] {
      var n := |fs| - 1;
      ReadFieldsOk(ops, fs[..n]);
      assert forall i :: 0 <= i < n ==> fs[..n][i] == fs[i];
    }
  }

  /** A failed `read` of a field list: some field k failed with exactly the reported
      error, every field before it read successfully and keeps the state its read
      left, and every field after it is untouched. */
  lemma {:induction false} ReadFieldsErr(ops: ColumnOps, fs: seq<SubReader>) returns (k: nat)
    requires ReadFields(ops, fs).0.Err?
    ensures var (r, fs') := ReadFields(ops, fs);
            k < |fs| &&
            (forall i :: 0 <= i < k ==> ReadSub(ops, fs[i]).0.Ok? && fs'[i] == ReadSub(ops, fs[i]).1) &&
            ReadSub(ops, fs[k]) == (Err(r.error), fs'[k]) &&
            fs'[k + 1..] == fs[k + 1..]
    decreases |fs|
  {
    var n := |fs| - 1;
    var (r0, done) := ReadFields(ops, fs[..n]);
    assert forall i :: 0 <= i < n ==> fs[..n][i] == fs[i];
    if r0.Err? {
      k := ReadFieldsErr(ops, fs[..n]);
    } else {
      ReadFieldsOk(ops, fs[..n]);
      k := n;
    }
  }

  /** A successful `advance_columns` of a field list advanced every field. */
  lemma {:induction false} AdvanceFieldsOk(ops: ColumnOps, fs: seq<SubReader>)
    requires AdvanceFields(ops, fs).0.Ok?
    ensures var fs' := AdvanceFields(ops, fs).1;
            forall i :: 0 <= i < |fs| ==> AdvanceSub(ops, fs[i]) == (Ok(()), fs'[i])
    decreases |fs|
  {
    var n := |fs| - 1;
    if fs != [] {
      AdvanceFieldsOk(ops, fs[..n]);
      assert forall i :: 0 <= i < n ==> fs[..n][i] == fs[i];
      var x := AdvanceSub(ops, fs[n]).0;
      if x.Ok? {
        var u := x.value;
        assert u == ();
      }
    }
  }

  /** A failed `advance_columns` of a field list: the fields before the failing one
      stay advanced, the failing one reports the error, the later ones are untouched. */
  lemma {:induction false} AdvanceFieldsErr(ops: ColumnOps, fs: seq<SubReader>) returns (k: nat)
    requires AdvanceFields(ops, fs).0.Err?
    ensures var (r, fs') := AdvanceFields(ops, fs);
            k < |fs| &&
            (forall i :: 0 <= i < k ==> AdvanceSub(ops, fs[i]) == (Ok(()), fs'[i])) &&
            AdvanceSub(ops, fs[k]) == (r, fs'[k]) &&
            fs'[k + 1..] == fs[k + 1..]
    decreases |fs|
  {
    var n := |fs| - 1;
    var (r0, done) := AdvanceFields(ops, fs[..n]);
    assert forall i :: 0 <= i < n ==> fs[..n][i] == fs[i];
    if r0.Err? {
      k := AdvanceFieldsErr(ops, fs[..n]);
    } else {
      AdvanceFieldsOk(ops, fs[..n]);
      k := n;
    }
  }

  /** Once a `read` of a prefix has failed, later fields change nothing but are kept. */
  lemma {:induction false} ReadFieldsErrSticky(ops: ColumnOps, a: seq<SubReader>, b: seq<SubReader>)
    requires ReadFields(ops, a).0.Err?
    ensures ReadFields(ops, a + b) == (ReadFields(ops, a).0, ReadFields(ops, a).1 + b)
    decreases |b|
  {
    if b == [] {
      assert a + b == a;
      assert ReadFields(ops, a).1 + b == ReadFields(ops, a).1;
    } else {
      var n := |b| - 1;
      assert (a + b)[..|a + b| - 1] == a + b[..n];
      ReadFieldsErrSticky(ops, a, b[..n]);
      assert ReadFields(ops, a).1 + b[..n] + [b[n]] == ReadFields(ops, a).1 + b;
    }
  }

  /** Once an `advance_columns` of a prefix has failed, later fields are kept as they were. */
  lemma {:induction false} AdvanceFieldsErrSticky(ops: ColumnOps, a: seq<SubReader>, b: seq<SubReader>)
    requires AdvanceFields(ops, a).0.Err?
    ensures AdvanceFields(ops, a + b) == (AdvanceFields(ops, a).0, AdvanceFields(ops, a).1 + b)
    decreases |b|
  {
    if b == [] {
      assert a + b == a;
      assert AdvanceFields(ops, a).1 + b == AdvanceFields(ops, a).1;
    } else {
      var n := |b| - 1;
      assert (a + b)[..|a + b| - 1] == a + b[..n];
      AdvanceFieldsErrSticky(ops, a, b[..n]);
      assert AdvanceFields(ops, a).1 + b[..n] + [b[n]] == AdvanceFields(ops, a).1 + b;
    }
  }

  /** The reader of a derived struct: one sub-reader per field, in declaration order. */
  class RecordReader {
    const ops: ColumnOps
    var fields: seq<SubReader>

    constructor (ops: ColumnOps, fields: seq<SubReader>)
      ensures this.ops == ops && this.fields == fields
    {
      this.ops := ops;
      this.fields := fields;
    }

    /** `read`: read every field in order into one struct value; the first error is
        returned as it is and the later fields are not read. */
    method Read() returns (r: Result<Value, ParquetError>)
      modifies this
      ensures (r, GroupReader(fields)) == ReadSub(ops, GroupReader(old(fields)))
    {
      var before := fields;
      var fs := fields;
      var values: seq<Value> := [];
      var i := 0;
      while i < |fs|
        invariant 0 <= i <= |fs| == |before|
        invariant fs[i..] == before[i..]
        invariant ReadFields(ops, before[..i]) == (Ok(values), fs[..i])
      {
        assert before[..i + 1][..i] == before[..i];
        assert before[i] == fs[i];
        var (x, s') := ReadSub(ops, fs[i]);
        fs := fs[i := s'];
        assert fs[..i + 1] == fs[..i] + [s'];
        if x.Err? {
          ReadFieldsErrSticky(ops, before[..i + 1], before[i + 1..]);
          assert before[..i + 1] + before[i + 1..] == before;
          assert fs == fs[..i + 1] + before[i + 1..];
          fields := fs;
          return Err(x.error);
        }
        values := values + [x.value];
        i := i + 1;
      }
      assert before[..i] == before && fs[..i] == fs;
      fields := fs;
      r := Ok(Struct(values));
    }

    /** `advance_columns`: advance every field in order; the first error is returned
        and the later fields are not advanced. */
    method AdvanceColumns() returns (r: Result<(), ParquetError>)
      modifies this
      ensures (r, GroupReader(fields)) == AdvanceSub(ops, GroupReader(old(fields)))
    {
      var before := fields;
      var fs := fields;
      var i := 0;
      while i < |fs|
        invariant 0 <= i <= |fs| == |before|
        invariant fs[i..] == before[i..]
        invariant AdvanceFields(ops, before[..i]) == (Ok(()), fs[..i])
      {
        assert before[..i + 1][..i] == before[..i];
        assert before[i] == fs[i];
        var (x, s') := AdvanceSub(ops, fs[i]);
        fs := fs[i := s'];
        assert fs[..i + 1] == fs[..i] + [s'];
        if x.Err? {
          AdvanceFieldsErrSticky(ops, before[..i + 1], before[i + 1..]);
          assert before[..i + 1] + before[i + 1..] == before;
          assert fs == fs[..i + 1] + before[i + 1..];
          fields := fs;
          return x;
        }
        var u := x.value;
        assert u == ();
        i := i + 1;
      }
      assert before[..i] == before && fs[..i] == fs;
      fields := fs;
      r := Ok(());
    }

    /** `has_next`: the first field's answer; true when there are no fields. */
    function HasNext(): (r: bool)
      reads this
      ensures fields == [] ==> r
      ensures fields != [] ==> r == HasNextSub(ops, fields[0])
    {
      HasNextSub(ops, GroupReader(fields))
    }

    /** `current_def_level`: the first field's answer; aborts when there are no fields. */
    function CurrentDefLevel(): (r: Result<int, ParquetError>)
      reads this
      ensures fields == [] ==> r == Err(Panic(EmptyDefLevel))
      ensures fields != [] ==> r == DefLevelSub(ops, fields[0])
    {
      DefLevelSub(ops, GroupReader(fields))
    }

    /** `current_rep_level`: the first field's answer; aborts when there are no fields. */
    function CurrentRepLevel(): (r: Result<int, ParquetError>)
      reads this
      ensures fields == [] ==> r == Err(Panic(EmptyRepLevel))
      ensures fields != [] ==> r == RepLevelSub(ops, fields[0])
    {
      RepLevelSub(ops, GroupReader(fields))
    }
  }
}
