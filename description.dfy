/** `Cursor.description`: one `Column` record per field of the current
    result's row type, with the display size looked up in a fixed table, and
    the text form of a `Column`. */
module Description {
  import opened DbapiErrors
  import opened Backend

  /** `code_to_display_size`: the display size of the types whose width is
      fixed; the size of every other type depends on the data and is left
      unset. */
  function DisplaySize(t: TypeCode): (r: Option<nat>)
    ensures r.Some? <==> t in {Bool, Date, Float64, Int64, Timestamp}
    ensures r.Some? ==> 1 <= r.value <= 12
    ensures r == Some(8) <==> t in {Float64, Int64}
  {
    match t
    case Bool => Some(1)
    case Date => Some(4)
    case Float64 => Some(8)
    case Int64 => Some(8)
    case Timestamp => Some(12)
    case _ => None
  }

  /** A `description` entry. */
  datatype Column = Column(
    name: string,
    typeCode: TypeCode,
    displaySize: Option<nat>,
    internalSize: Option<nat>,
    precision: Option<int>,
    scale: Option<int>,
    nullOk: bool)

  /** The entry for one field: precision and scale unset, `null_ok` false. */
  function ColumnOf(f: Field): (c: Column)
    ensures c.name == f.name && c.typeCode == f.typeCode && c.internalSize == Some(f.byteSize)
    ensures c.displaySize.Some? <==> f.typeCode in {Bool, Date, Float64, Int64, Timestamp}
    ensures c.precision == None && c.scale == None && !c.nullOk
  {
    Column(f.name, f.typeCode, DisplaySize(f.typeCode), Some(f.byteSize), None, None, false)
  }

  /** `description`: `None` unless there is a stream whose metadata has
      arrived; otherwise one column per field of the row type, in order,
      carrying the field's name and type, the table's display size and the
      field's serialized size. */
  function Describe(stream: Option<Stream>): (r: Option<seq<Column>>)
    ensures r.None? <==> stream.None? || stream.value.metadata.None?
    ensures r.Some? ==> |r.value| == |stream.value.metadata.value.fields|
    ensures r.Some? ==> forall i :: 0 <= i < |r.value| ==>
      var f := stream.value.metadata.value.fields[i];
      r.value[i].name == f.name && r.value[i].typeCode == f.typeCode
      && r.value[i].displaySize == DisplaySize(f.typeCode)
      && r.value[i].internalSize == Some(f.byteSize)
      && r.value[i].precision == None && r.value[i].scale == None && !r.value[i].nullOk
  {
    match stream
    case None => None
    case Some(s) =>
      match s.metadata
      case None => None
      case Some(m) => Some(seq(|m.fields|, i requires 0 <= i < |m.fields| => ColumnOf(m.fields[i])))
  }

  // ---- text form ----

  function Digit(d: nat): (c: char)
    requires d < 10
  {
    "0123456789"[d]
  }

  predicate IsDigit(c: char) { '0' <= c <= '9' }

  /** Python's `str` of a non-negative integer: its decimal digits, with no
      leading zero. */
  function NatToString(n: nat): (s: string)
    ensures |s| >= 1 && (forall i :: 0 <= i < |s| ==> IsDigit(s[i]))
    ensures s[0] == '0' ==> n == 0
    decreases n
  {
    if n < 10 then [Digit(n)] else NatToString(n / 10) + [Digit(n % 10)]
  }

  function DigitValue(c: char): (d: nat)
    requires IsDigit(c)
    ensures d < 10
  {
    (c as int - '0' as int) as nat
  }

  /** Reading a string of decimal digits back as a number. */
  function ParseNat(s: string): (n: nat)
    requires forall i :: 0 <= i < |s| ==> IsDigit(s[i])
    decreases |s|
  {
    if s == [] then 0 else 10 * ParseNat(s[..|s| - 1]) + DigitValue(s[|s| - 1])
  }

  /** The decimal text of a number reads back as that number. */
  lemma {:induction false} NatToStringRoundTrip(n: nat)
    ensures ParseNat(NatToString(n)) == n
    decreases n
  {
    var s := NatToString(n);
    if n >= 10 {
      NatToStringRoundTrip(n / 10);
      assert s[..|s| - 1] == NatToString(n / 10);
    }
    assert DigitValue(Digit(n % 10)) == n % 10;
  }

  /** Python's `str` of an integer. */
  function IntToString(i: int): string
  {
    if i < 0 then "-" + NatToString(-i) else NatToString(i)
  }

  /** `", ".join(parts)`. */
  function Join(parts: seq<string>): (s: string)
    ensures parts == [] ==> s == []
    ensures |parts| == 1 ==> s == parts[0]
    decreases |parts|
  {
    if parts == [] then []
    else if |parts| == 1 then parts[0]
    else Join(parts[..|parts| - 1]) + ", " + parts[|parts| - 1]
  }

  /** A field whose value is unset or falsy (`None`, `0`) is left out of the
      text form. */
  predicate Truthy(v: Option<int>) { v.Some? && v.value != 0 }

  /** The `name=value` items of `Column.__str__`, unset or falsy fields
      dropped. */
  function ColumnItems(c: Column): (items: seq<string>)
    ensures |items| >= 2
    ensures items[0] == "name='" + c.name + "'"
    ensures items[1] == "type_code=" + NatToString(CodeNumber(c.typeCode))
  {
    ["name='" + c.name + "'", "type_code=" + NatToString(CodeNumber(c.typeCode))]
    + (if Truthy(c.displaySize) then ["display_size=" + NatToString(c.displaySize.value)] else [])
    + (if Truthy(c.internalSize) then ["internal_size=" + NatToString(c.internalSize.value)] else [])
    + (if Truthy(c.precision) then ["precision='" + IntToString(c.precision.value) + "'"] else [])
    + (if Truthy(c.scale) then ["scale='" + IntToString(c.scale.value) + "'"] else [])
    + (if c.nullOk then ["null_ok='True'"] else [])
  }

  function Count(b: bool): nat { if b then 1 else 0 }

  /** Exactly the set fields are shown: the name and type code always, and
      one item for each of the five optional fields that is truthy. */
  lemma ColumnItemsCount(c: Column)
    ensures |ColumnItems(c)| == 2 + Count(Truthy(c.displaySize)) + Count(Truthy(c.internalSize))
      + Count(Truthy(c.precision)) + Count(Truthy(c.scale)) + Count(c.nullOk)
  {
  }

  /** `Column.__str__`. */
  function ColumnStr(c: Column): (s: string)
    ensures |s| >= 8 && s[..7] == "Column(" && s[|s| - 1] == ')'
  {
    "Column(" + Join(ColumnItems(c)) + ")"
  }

  /** Joining a list whose first item is `a` yields text that starts with
      `a`, whatever follows. */
  lemma {:induction false} JoinStartsWithFirst(parts: seq<string>)
    requires |parts| >= 1
    ensures |Join(parts)| >= |parts[0]| && Join(parts)[..|parts[0]|] == parts[0]
    decreases |parts|
  {
    if |parts| > 1 {
      var init := parts[..|parts| - 1];
      JoinStartsWithFirst(init);
      assert init[0] == parts[0];
      var j := Join(init);
      assert Join(parts) == j + ", " + parts[|parts| - 1];
      assert (j + ", " + parts[|parts| - 1])[..|parts[0]|] == j[..|parts[0]|];
    }
  }

  /** The text form always opens with the class name and the column name,
      and closes with a parenthesis. */
  lemma ColumnStrShape(c: Column)
    ensures var s := ColumnStr(c);
            var head := "Column(name='" + c.name + "'";
            |s| > |head| && s[..|head|] == head && s[|s| - 1] == ')'
  {
    var items := ColumnItems(c);
    JoinStartsWithFirst(items);
    var j := Join(items);
    var s := "Column(" + j + ")";
    assert s == ColumnStr(c);
    assert s[..7 + |items[0]|] == "Column(" + j[..|items[0]|];
  }

  /** The example of a column with a type code of 8, internal size 10 and
      precision 3, and neither display size, scale nor `null_ok`. */
  lemma ColumnStrExample()
    ensures ColumnStr(Column("col-name", ArrayType, None, Some(10), Some(3), None, false))
      == "Column(" + "name='col-name'" + ", " + "type_code=8" + ", " + "internal_size=10"
         + ", " + "precision='3'" + ")"
  {
    var a, b, c, d := "name='col-name'", "type_code=8", "internal_size=10", "precision='3'";
    ExampleItems();
    assert [a, b][..1] == [a];
    assert Join([a, b]) == a + ", " + b;
    assert [a, b, c][..2] == [a, b];
    assert Join([a, b, c]) == a + ", " + b + ", " + c;
    assert [a, b, c, d][..3] == [a, b, c];
    assert Join([a, b, c, d]) == a + ", " + b + ", " + c + ", " + d;
  }

  lemma ExampleItems()
    ensures ColumnItems(Column("col-name", ArrayType, None, Some(10), Some(3), None, false))
      == ["name='col-name'", "type_code=8", "internal_size=10", "precision='3'"]
  {
    var c := Column("col-name", ArrayType, None, Some(10), Some(3), None, false);
    assert NatToString(10) == "10";
    assert NatToString(8) == "8";
    assert IntToString(3) == "3";
    var it := ColumnItems(c);
    assert |it| == 4;
    assert it[0] == "name='col-name'";
    assert it[1] == "type_code=8";
    assert it[2] == "internal_size=10";
    assert it[3] == "precision='3'";
  }
}
