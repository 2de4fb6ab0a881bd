/** The four order-by scenarios: the same two input pages sorted on one ascending key, on
    two keys of mixed direction, on one descending key, and buffered under a 10-byte task
    ceiling. The per-row byte estimate and the memory ceiling of the unconstrained runs
    are parameters. */
module OrderByScenarios {
  import opened Common
  import opened SortOrdering
  import opened OrderBy

  // Bit patterns of the DOUBLE payloads.
  const MinusPointOne: bv64 := 0xBFB9_9999_9999_999A
  const PointOne: bv64 := 0x3FB9_9999_9999_999A
  const PointTwo: bv64 := 0x3FC9_9999_9999_999A
  const PointFour: bv64 := 0x3FD9_9999_9999_999A

  /** (BIGINT, DOUBLE) rows (1, 0.1), (2, 0.2), a page break, then (-1, -0.1), (4, 0.4). */
  function NumberPages(): (pages: seq<Page>)
    ensures PagesConform(pages, [Bigint, Double])
    ensures |pages| == 2 && |Flatten(pages)| == 4
  {
    var pages := [
      [[BigintValue(1), DoubleValue(PointOne)], [BigintValue(2), DoubleValue(PointTwo)]],
      [[BigintValue(-1), DoubleValue(MinusPointOne)], [BigintValue(4), DoubleValue(PointFour)]]];
    assert Flatten(pages) == Flatten(pages[..1]) + pages[1];
    assert pages[..1][..0] == [];
    pages
  }

  /** (VARCHAR, BIGINT) rows ("a", 1), ("b", 2), a page break, then ("b", 3), ("a", 4). */
  function TextPages(): (pages: seq<Page>)
    ensures PagesConform(pages, [Varchar, Bigint])
    ensures |pages| == 2
  {
    [[[VarcharValue("a"), BigintValue(1)], [VarcharValue("b"), BigintValue(2)]],
     [[VarcharValue("b"), BigintValue(3)], [VarcharValue("a"), BigintValue(4)]]]
  }

  function NumberRow(key: int, payload: bv64): Row
  {
    [BigintValue(key), DoubleValue(payload)]
  }

  function TextRow(key: string, n: int): Row
  {
    [VarcharValue(key), BigintValue(n)]
  }

  lemma NumberRows()
    ensures Flatten(NumberPages())
         == [NumberRow(1, PointOne), NumberRow(2, PointTwo), NumberRow(-1, MinusPointOne), NumberRow(4, PointFour)]
  {
    var pages := NumberPages();
    assert Flatten(pages) == Flatten(pages[..1]) + pages[1];
    assert pages[..1][..0] == [];
  }

  lemma TextRows()
    ensures Flatten(TextPages()) == [TextRow("a", 1), TextRow("b", 2), TextRow("b", 3), TextRow("a", 4)]
  {
    var pages := TextPages();
    assert Flatten(pages) == Flatten(pages[..1]) + pages[1];
    assert pages[..1][..0] == [];
  }

  /** Projecting four rows onto one channel leaves that channel's column. */
  lemma ProjectColumn(a: Row, b: Row, c: Row, d: Row, channel: nat)
    ensures ProjectAll([a, b, c, d], [channel]) == [[At(a, channel)], [At(b, channel)], [At(c, channel)], [At(d, channel)]]
  {
    var l := ProjectAll([a, b, c, d], [channel]);
    assert l[0] == Project(a, [channel]) == [At(a, channel)];
    assert l[1] == Project(b, [channel]) == [At(b, channel)];
    assert l[2] == Project(c, [channel]) == [At(c, channel)];
    assert l[3] == Project(d, [channel]) == [At(d, channel)];
  }

  /** Projecting two-column rows onto channels 0 and 1 leaves them as they are. */
  lemma ProjectBothColumns(rows: seq<Row>)
    requires forall i :: 0 <= i < |rows| ==> |rows[i]| == 2
    ensures ProjectAll(rows, [0, 1]) == rows
  {
    var l := ProjectAll(rows, [0, 1]);
    forall i | 0 <= i < |rows| ensures l[i] == rows[i] {
      assert l[i] == Project(rows[i], [0, 1]);
    }
  }

  /** The number rows in ascending order of channel 0: keys -1, 1, 2, 4. */
  lemma AscendingNumbers()
    ensures var a, b, c, d := NumberRow(1, PointOne), NumberRow(2, PointTwo), NumberRow(-1, MinusPointOne), NumberRow(4, PointFour);
            SortRows([SortKey(0, AscNullsLast)], [a, b, c, d]) == [c, a, b, d]
  {
    var a, b, c, d := NumberRow(1, PointOne), NumberRow(2, PointTwo), NumberRow(-1, MinusPointOne), NumberRow(4, PointFour);
    var keys := [SortKey(0, AscNullsLast)];
    assert SortRows(keys, [d]) == [d];
    assert SortRows(keys, [c, d]) == [c, d] by {
      assert [c, d][1..] == [d];
      assert CompareRows(keys, c, d) == -1;
    }
    assert SortRows(keys, [b, c, d]) == [c, b, d] by {
      assert [b, c, d][1..] == [c, d];
      assert CompareRows(keys, b, c) == 1;
      assert CompareRows(keys, b, d) == -1;
      assert Insert(keys, b, [d]) == [b, d];
    }
    assert SortRows(keys, [a, b, c, d]) == [c, a, b, d] by {
      assert [a, b, c, d][1..] == [b, c, d];
      assert CompareRows(keys, a, c) == 1;
      assert CompareRows(keys, a, b) == -1;
      assert Insert(keys, a, [b, d]) == [a, b, d];
    }
  }

  /** The number rows in descending order of channel 0: keys 4, 2, 1, -1. */
  lemma DescendingNumbers()
    ensures var a, b, c, d := NumberRow(1, PointOne), NumberRow(2, PointTwo), NumberRow(-1, MinusPointOne), NumberRow(4, PointFour);
            SortRows([SortKey(0, DescNullsLast)], [a, b, c, d]) == [d, b, a, c]
  {
    var a, b, c, d := NumberRow(1, PointOne), NumberRow(2, PointTwo), NumberRow(-1, MinusPointOne), NumberRow(4, PointFour);
    var keys := [SortKey(0, DescNullsLast)];
    assert SortRows(keys, [d]) == [d];
    assert SortRows(keys, [c, d]) == [d, c] by {
      assert [c, d][1..] == [d] && [d][1..] == [];
      assert CompareRows(keys, c, d) == 1;
      assert Insert(keys, c, []) == [c];
    }
    assert SortRows(keys, [b, c, d]) == [d, b, c] by {
      assert [b, c, d][1..] == [c, d];
      assert CompareRows(keys, b, d) == 1;
      assert CompareRows(keys, b, c) == -1;
      assert Insert(keys, b, [c]) == [b, c];
    }
    assert SortRows(keys, [a, b, c, d]) == [d, b, a, c] by {
      assert [a, b, c, d][1..] == [b, c, d];
      assert CompareRows(keys, a, d) == 1;
      assert CompareRows(keys, a, b) == 1;
      assert CompareRows(keys, a, c) == -1;
      assert Insert(keys, a, [b, c]) == [b, a, c];
    }
  }

  /** The text rows ordered on channel 0 ascending, then channel 1 descending. */
  lemma SortedText()
    ensures var a, b, c, d := TextRow("a", 1), TextRow("b", 2), TextRow("b", 3), TextRow("a", 4);
            SortRows([SortKey(0, AscNullsLast), SortKey(1, DescNullsLast)], [a, b, c, d]) == [d, a, c, b]
  {
    var a, b, c, d := TextRow("a", 1), TextRow("b", 2), TextRow("b", 3), TextRow("a", 4);
    var keys := [SortKey(0, AscNullsLast), SortKey(1, DescNullsLast)];
    assert CompareStrings("a", "a") == 0 && CompareStrings("b", "b") == 0;
    assert keys[1..] == [SortKey(1, DescNullsLast)];
    assert SortRows(keys, [d]) == [d];
    assert SortRows(keys, [c, d]) == [d, c] by {
      assert [c, d][1..] == [d] && [d][1..] == [];
      assert CompareRows(keys, c, d) == 1;
      assert Insert(keys, c, []) == [c];
    }
    assert SortRows(keys, [b, c, d]) == [d, c, b] by {
      assert [b, c, d][1..] == [c, d];
      assert CompareRows(keys, b, d) == 1;
      assert CompareRows(keys, b, c) == 1;
      assert Insert(keys, b, [c]) == [c, b];
    }
    assert SortRows(keys, [a, b, c, d]) == [d, a, c, b] by {
      assert [a, b, c, d][1..] == [b, c, d];
      assert CompareRows(keys, a, d) == 1;
      assert CompareRows(keys, a, c) == -1;
      assert Insert(keys, a, [c, b]) == [a, c, b];
    }
  }

  /** Sorting on channel 0 ascending, nulls last, and emitting channel 1 gives the
      payloads in key order -1, 1, 2, 4. */
  method SingleFieldKey(rowBytes: Row -> nat, maxBytes: nat, pageRows: nat) returns (r: Result<seq<Row>>)
    requires pageRows > 0
    requires EstimatedBytes(rowBytes, Flatten(NumberPages())) <= maxBytes
    ensures r == Ok([[DoubleValue(MinusPointOne)], [DoubleValue(PointOne)], [DoubleValue(PointTwo)], [DoubleValue(PointFour)]])
  {
    var factory := OrderByOperatorFactory(0, [Bigint, Double], [1], 10, [0], [AscNullsLast]);
    assert factory.Keys() == [SortKey(0, AscNullsLast)];
    r := RunOrderBy(factory, maxBytes, rowBytes, pageRows, NumberPages());
    NumberRows();
    AscendingNumbers();
    ProjectColumn(NumberRow(-1, MinusPointOne), NumberRow(1, PointOne), NumberRow(2, PointTwo), NumberRow(4, PointFour), 1);
  }

  /** Sorting on channel 0 ascending, then channel 1 descending, breaks the ties of the
      first key with the second. */
  method MultiFieldKey(rowBytes: Row -> nat, maxBytes: nat, pageRows: nat) returns (r: Result<seq<Row>>)
    requires pageRows > 0
    requires EstimatedBytes(rowBytes, Flatten(TextPages())) <= maxBytes
    ensures r == Ok([[VarcharValue("a"), BigintValue(4)], [VarcharValue("a"), BigintValue(1)],
                     [VarcharValue("b"), BigintValue(3)], [VarcharValue("b"), BigintValue(2)]])
  {
    var factory := OrderByOperatorFactory(0, [Varchar, Bigint], [0, 1], 10, [0, 1], [AscNullsLast, DescNullsLast]);
    r := RunOrderBy(factory, maxBytes, rowBytes, pageRows, TextPages());
    MultiFieldResult(factory, maxBytes, rowBytes);
  }

  /** The result the multi-key factory gives for the text pages. */
  lemma MultiFieldResult(factory: OrderByOperatorFactory, maxBytes: nat, rowBytes: Row -> nat)
    requires factory == OrderByOperatorFactory(0, [Varchar, Bigint], [0, 1], 10, [0, 1], [AscNullsLast, DescNullsLast])
    requires EstimatedBytes(rowBytes, Flatten(TextPages())) <= maxBytes
    ensures OrderByResult(factory, maxBytes, rowBytes, TextPages())
         == Ok([[VarcharValue("a"), BigintValue(4)], [VarcharValue("a"), BigintValue(1)],
                [VarcharValue("b"), BigintValue(3)], [VarcharValue("b"), BigintValue(2)]])
  {
    assert factory.Keys() == [SortKey(0, AscNullsLast), SortKey(1, DescNullsLast)];
    TextRows();
    SortedText();
    ProjectBothColumns([TextRow("a", 4), TextRow("a", 1), TextRow("b", 3), TextRow("b", 2)]);
  }

  /** Sorting on channel 0 descending gives 4, 2, 1, -1: the ascending key order read
      backwards. */
  method ReverseOrder(rowBytes: Row -> nat, maxBytes: nat, pageRows: nat) returns (r: Result<seq<Row>>)
    requires pageRows > 0
    requires EstimatedBytes(rowBytes, Flatten(NumberPages())) <= maxBytes
    ensures r == Ok([[BigintValue(4)], [BigintValue(2)], [BigintValue(1)], [BigintValue(-1)]])
    ensures r == Ok(Reverse(ProjectAll(SortRows([SortKey(0, AscNullsLast)], Flatten(NumberPages())), [0])))
  {
    var factory := OrderByOperatorFactory(0, [Bigint, Double], [0], 10, [0], [DescNullsLast]);
    assert factory.Keys() == [SortKey(0, DescNullsLast)];
    r := RunOrderBy(factory, maxBytes, rowBytes, pageRows, NumberPages());
    var a, b, c, d := NumberRow(1, PointOne), NumberRow(2, PointTwo), NumberRow(-1, MinusPointOne), NumberRow(4, PointFour);
    NumberRows();
    AscendingNumbers();
    DescendingNumbers();
    ProjectColumn(d, b, a, c, 0);
    ProjectColumn(c, a, b, d, 0);
    var ascending := [[BigintValue(-1)], [BigintValue(1)], [BigintValue(2)], [BigintValue(4)]];
    assert Reverse(ascending) == [[BigintValue(4)], [BigintValue(2)], [BigintValue(1)], [BigintValue(-1)]];
  }

  /** Under a 10-byte ceiling, an input whose estimate exceeds it fails with the
      memory-limit error, whose message names the ceiling. */
  method MemoryLimit(rowBytes: Row -> nat, pageRows: nat) returns (r: Result<seq<Row>>)
    requires pageRows > 0
    requires EstimatedBytes(rowBytes, Flatten(NumberPages())) > 10
    ensures r == Err(ExceededMemoryLimit(10))
    ensures Message(r.error) == "Task exceeded max memory size of 10B"
  {
    var factory := OrderByOperatorFactory(0, [Bigint, Double], [1], 10, [0], [AscNullsLast]);
    r := RunOrderBy(factory, 10, rowBytes, pageRows, NumberPages());
  }
}
