/** The cursor's row iterator (the peek iterator over a result stream) as a
    value: the rows of the stream and how many of them have been handed out.
    The fetch operations of the cursor are specified by the functions here. */
module Fetch {
  import opened DbapiErrors
  import opened Backend

  datatype RowIterator = RowIterator(rows: seq<Row>, pos: nat) {
    ghost predicate Valid() { pos <= |rows| }

    /** The rows not yet handed out. */
    function Remaining(): (r: seq<Row>)
      requires Valid()
      ensures |r| == |rows| - pos
    {
      rows[pos..]
    }
  }

  /** The iterator over a stream as `execute` creates it, before any fetch. */
  function Start(s: Stream): (it: RowIterator)
    ensures it.Valid() && it.Remaining() == s.rows
  {
    RowIterator(s.rows, 0)
  }

  /** `next(iterator)`: the next row, or `None` for `StopIteration`. */
  function Advance(it: RowIterator): (r: (Option<Row>, RowIterator))
    requires it.Valid()
    ensures r.1.Valid() && r.1.rows == it.rows
    ensures it.Remaining() == [] <==> r.0 == None
    ensures r.0 == None ==> r.1 == it
    ensures r.0 != None ==> [r.0.value] + r.1.Remaining() == it.Remaining()
  {
    if it.pos < |it.rows| then (Some(it.rows[it.pos]), it.(pos := it.pos + 1))
    else (None, it)
  }

  /** The rows `fetchmany(size)` hands out: at most `size` of them (none for
      a size that is zero or negative), fewer only when the rows run out. */
  function TakeMany(it: RowIterator, size: int): (r: (seq<Row>, RowIterator))
    requires it.Valid()
    ensures r.1.Valid() && r.1.rows == it.rows
    ensures |r.0| <= if size < 0 then 0 else size
    ensures |r.0| < size ==> r.1.Remaining() == []
    ensures r.0 + r.1.Remaining() == it.Remaining()
  {
    var k := if size <= 0 then 0 else if size < |it.rows| - it.pos then size else |it.rows| - it.pos;
    assert it.rows[it.pos..] == it.rows[it.pos..it.pos + k] + it.rows[it.pos + k..];
    (it.rows[it.pos..it.pos + k], it.(pos := it.pos + k))
  }

  /** The rows `fetchall` hands out: every remaining row. */
  function TakeAll(it: RowIterator): (r: (seq<Row>, RowIterator))
    requires it.Valid()
    ensures r.1.Valid() && r.1.rows == it.rows
    ensures r.0 == it.Remaining() && r.1.Remaining() == []
  {
    (it.rows[it.pos..], it.(pos := |it.rows|))
  }

  /** The rows of a run of successive `fetchmany` calls with the given
      sizes, concatenated, and the iterator they leave: together they are
      exactly the rows that were remaining, in order. */
  function FetchManyRun(it: RowIterator, sizes: seq<int>): (r: (seq<Row>, RowIterator))
    requires it.Valid()
    ensures r.1.Valid() && r.1.rows == it.rows
    ensures r.0 + r.1.Remaining() == it.Remaining()
    decreases |sizes|
  {
    if sizes == [] then ([], it)
    else
      var first := TakeMany(it, sizes[0]);
      var rest := FetchManyRun(first.1, sizes[1..]);
      assert first.0 + rest.0 + rest.1.Remaining() == it.Remaining() by {
        assert first.0 + rest.0 + rest.1.Remaining() == first.0 + (rest.0 + rest.1.Remaining());
      }
      (first.0 + rest.0, rest.1)
  }

  /** Cumulative fetching neither duplicates nor loses rows: any run of
      `fetchmany` calls followed by `fetchall` yields exactly the rows a
      single `fetchall` would have. */
  lemma FetchManyThenAll(it: RowIterator, sizes: seq<int>)
    requires it.Valid()
    ensures FetchManyRun(it, sizes).0 + TakeAll(FetchManyRun(it, sizes).1).0 == TakeAll(it).0
  {
  }

  /** Two successive `fetchmany` calls with non-negative sizes hand out the
      same rows, and leave the iterator in the same place, as one call with
      the sum of the sizes. */
  lemma TakeManySplit(it: RowIterator, a: nat, b: nat)
    requires it.Valid()
    ensures var (first, it') := TakeMany(it, a);
            var (second, it'') := TakeMany(it', b);
            first + second == TakeMany(it, a + b).0 && it'' == TakeMany(it, a + b).1
  {
    var (first, it') := TakeMany(it, a);
    var (second, it'') := TakeMany(it', b);
    var (both, itb) := TakeMany(it, a + b);
    assert it'.pos == it.pos + |first|;
    assert it''.pos == it'.pos + |second|;
    assert itb.pos == it.pos + |both|;
    assert |first| + |second| == |both|;
    assert first + second == it.rows[it.pos..itb.pos];
  }

  /** A positive `fetchmany(size)` stops either after `size` rows or at
      the end of the rows, whichever comes first. */
  lemma TakeManyStop(it: RowIterator, size: int, j: nat)
    requires it.Valid() && size > 0 && it.pos <= j <= |it.rows| && j - it.pos <= size
    requires j - it.pos == size || j == |it.rows|
    ensures TakeMany(it, size) == (it.rows[it.pos..j], it.(pos := j))
  {
  }

  /** `fetchone` one row at a time agrees with `fetchmany(1)`. */
  lemma AdvanceIsTakeOne(it: RowIterator)
    requires it.Valid()
    ensures var (row, it') := Advance(it);
            TakeMany(it, 1) == (if row == None then [] else [row.value], it')
  {
    if it.pos < |it.rows| {
      assert it.rows[it.pos..it.pos + 1] == [it.rows[it.pos]];
    }
  }
}
