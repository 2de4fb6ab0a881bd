/** The order-by operator: it buffers every page pushed into it, reserving the buffer's
    estimated size against the task's memory ceiling; on finish it sorts the buffered rows
    on its sort keys; then it is pulled for output pages holding the sorted rows projected
    onto its output channels. */
module OrderBy {
  import opened Common
  import opened SortOrdering

  type Page = seq<Row>

  /** The rows of the pages in arrival order: the buffer the pages fill. */
  function Flatten(pages: seq<Page>): (rows: seq<Row>)
    ensures pages == [] ==> rows == []
  {
    if pages == [] then [] else Flatten(pages[..|pages| - 1]) + pages[|pages| - 1]
  }

  lemma {:induction false} FlattenAppend(x: seq<Page>, y: seq<Page>)
    ensures Flatten(x + y) == Flatten(x) + Flatten(y)
  {
    if y != [] {
      var n := |y| - 1;
      assert (x + y)[..|x + y| - 1] == x + y[..n];
      FlattenAppend(x, y[..n]);
    } else {
      assert x + y == x;
    }
  }

  /** Where a page break falls does not change the buffered rows. */
  lemma PageBreakInvisible(before: seq<Page>, a: Page, b: Page, after: seq<Page>)
    ensures Flatten(before + [a, b] + after) == Flatten(before + [a + b] + after)
  {
    FlattenAppend(before + [a, b], after);
    FlattenAppend(before + [a + b], after);
    FlattenAppend(before, [a, b]);
    FlattenAppend(before, [a + b]);
    FlattenPair(a, b);
    FlattenSingle(a + b);
  }

  lemma FlattenSingle(a: Page)
    ensures Flatten([a]) == a
  {
    assert [a][..0] == [];
  }

  lemma FlattenPair(a: Page, b: Page)
    ensures Flatten([a, b]) == a + b
  {
    assert [a, b][..1] == [a];
    FlattenSingle(a);
  }

  /** The buffer's size estimate: the sum of the per-row estimates. */
  function EstimatedBytes(rowBytes: Row -> nat, rows: seq<Row>): nat
  {
    if rows == [] then 0 else EstimatedBytes(rowBytes, rows[..|rows| - 1]) + rowBytes(rows[|rows| - 1])
  }

  lemma {:induction false} EstimatedBytesAppend(rowBytes: Row -> nat, a: seq<Row>, b: seq<Row>)
    ensures EstimatedBytes(rowBytes, a + b) == EstimatedBytes(rowBytes, a) + EstimatedBytes(rowBytes, b)
  {
    if b != [] {
      var n := |b| - 1;
      assert (a + b)[..|a + b| - 1] == a + b[..n];
      EstimatedBytesAppend(rowBytes, a, b[..n]);
    } else {
      assert a + b == a;
    }
  }

  /** Every row of the pages has the declared column types. */
  predicate RowsConform(rows: seq<Row>, types: seq<Type>)
  {
    forall i :: 0 <= i < |rows| ==> Conforms(rows[i], types)
  }

  predicate PagesConform(pages: seq<Page>, types: seq<Type>)
  {
    forall p :: 0 <= p < |pages| ==> RowsConform(pages[p], types)
  }

  lemma {:induction false} FlattenConforms(pages: seq<Page>, types: seq<Type>)
    requires PagesConform(pages, types)
    ensures RowsConform(Flatten(pages), types)
  {
    if pages != [] {
      var n := |pages| - 1;
      FlattenConforms(pages[..n], types);
      var front := Flatten(pages[..n]);
      forall i | 0 <= i < |front + pages[n]| ensures Conforms((front + pages[n])[i], types) {
        if i >= |front| {
          assert (front + pages[n])[i] == pages[n][i - |front|];
        }
      }
    }
  }

  // ---------------------------------------------------------------------------
  // The task's memory ceiling
  // ---------------------------------------------------------------------------

  /** The bytes reserved by a task's operators, never above the task's ceiling. */
  class TaskMemory {
    const maxBytes: nat
    var reservedBytes: nat

    ghost predicate Valid()
      reads this
    {
      reservedBytes <= maxBytes
    }

    constructor(maxBytes: nat)
      ensures Valid()
      ensures this.maxBytes == maxBytes && reservedBytes == 0
    {
      this.maxBytes := maxBytes;
      reservedBytes := 0;
    }

    /** Reserves the bytes if they fit under the ceiling, and otherwise reserves nothing. */
    method TryReserve(bytes: nat) returns (ok: bool)
      requires Valid()
      modifies this
      ensures Valid()
      ensures ok <==> old(reservedBytes) + bytes <= maxBytes
      ensures reservedBytes == if ok then old(reservedBytes) + bytes else old(reservedBytes)
    {
      ok := reservedBytes + bytes <= maxBytes;
      if ok {
        reservedBytes := reservedBytes + bytes;
      }
    }

    method Free(bytes: nat)
      requires Valid() && bytes <= reservedBytes
      modifies this
      ensures Valid()
      ensures reservedBytes == old(reservedBytes) - bytes
    {
      reservedBytes := reservedBytes - bytes;
    }
  }

  // ---------------------------------------------------------------------------
  // The operator
  // ---------------------------------------------------------------------------

  /** The factory's parameters: operator id, the source column types, the output
      channels, the expected number of positions (a capacity hint with no effect on the
      result), the sort channels, and one sort order per sort channel. */
  datatype OrderByOperatorFactory = OrderByOperatorFactory(
    operatorId: nat,
    sourceTypes: seq<Type>,
    outputChannels: seq<nat>,
    expectedPositions: nat,
    sortChannels: seq<nat>,
    sortOrders: seq<SortOrder>)
  {
    predicate WellFormed()
    {
      && |sortChannels| == |sortOrders|
      && ChannelsWithin(outputChannels, |sourceTypes|)
      && ChannelsWithin(sortChannels, |sourceTypes|)
    }

    /** The sort keys: the i-th sort channel with the i-th sort order. */
    function Keys(): (keys: seq<SortKey>)
      requires WellFormed()
      ensures |keys| == |sortChannels|
      ensures forall i :: 0 <= i < |keys| ==> keys[i].channel == sortChannels[i] && keys[i].order == sortOrders[i]
      ensures forall i :: 0 <= i < |keys| ==> keys[i].channel < |sourceTypes|
    {
      SortKeys(sortChannels, sortOrders)
    }

    /** The types of the output columns: those of the projected source channels. */
    function OutputTypes(): (types: seq<Type>)
      requires WellFormed()
      ensures |types| == |outputChannels|
      ensures forall k :: 0 <= k < |types| ==> types[k] == sourceTypes[outputChannels[k]]
    {
      seq(|outputChannels|, k requires 0 <= k < |outputChannels| => sourceTypes[outputChannels[k]])
    }
  }

  datatype OperatorState = Accepting | HasOutput | Finished

  class OrderByOperator {
    const factory: OrderByOperatorFactory
    const keys: seq<SortKey>
    /** Rows per output page. */
    const pageRows: nat
    /** The per-row byte estimate of the buffer. */
    const rowBytes: Row -> nat
    const memory: TaskMemory

    var state: OperatorState
    /** The buffered rows, in arrival order. */
    var buffer: seq<Row>
    /** The bytes this operator holds in the task's memory. */
    var reservation: nat
    /** The buffered rows in sort order, fixed on finish. */
    var sorted: seq<Row>
    /** The next sorted row to emit. */
    var position: nat

    ghost predicate Valid()
      reads this, memory
    {
      && memory.Valid()
      && factory.WellFormed()
      && keys == factory.Keys()
      && pageRows > 0
      && RowsConform(buffer, factory.sourceTypes)
      && reservation <= memory.reservedBytes
      && (state == Accepting ==> sorted == [] && position == 0)
      && (state != Accepting ==> sorted == SortRows(keys, buffer) && position <= |sorted|)
      && (state == Finished ==> position == |sorted|)
    }

    constructor(factory: OrderByOperatorFactory, memory: TaskMemory, rowBytes: Row -> nat, pageRows: nat)
      requires factory.WellFormed() && memory.Valid() && pageRows > 0
      ensures Valid()
      ensures this.factory == factory && this.memory == memory
      ensures this.rowBytes == rowBytes && this.pageRows == pageRows
      ensures state == Accepting && buffer == [] && reservation == 0
    {
      this.factory := factory;
      keys := factory.Keys();
      this.pageRows := pageRows;
      this.rowBytes := rowBytes;
      this.memory := memory;
      state := Accepting;
      buffer := [];
      reservation := 0;
      sorted := [];
      position := 0;
    }

    method NeedsInput() returns (b: bool)
      ensures b <==> state == Accepting
    {
      b := state == Accepting;
    }

    method IsFinished() returns (b: bool)
      ensures b <==> state == Finished
      ensures Valid() && b ==> position == |sorted|
    {
      b := state == Finished;
    }

    /** Sets this operator's reservation to the given size, if the task's other
        reservations leave room for it. */
    method TrySetReservation(bytes: nat) returns (ok: bool)
      requires Valid()
      modifies this`reservation, memory
      ensures Valid()
      ensures ok <==> old(memory.reservedBytes) - old(reservation) + bytes <= memory.maxBytes
      ensures ok ==> reservation == bytes && memory.reservedBytes == old(memory.reservedBytes) - old(reservation) + bytes
      ensures !ok ==> reservation == old(reservation) && memory.reservedBytes == old(memory.reservedBytes)
    {
      if bytes >= reservation {
        ok := memory.TryReserve(bytes - reservation);
        if ok {
          reservation := bytes;
        }
      } else {
        memory.Free(reservation - bytes);
        reservation := bytes;
        ok := true;
      }
    }

    /** Buffers the page's rows, then grows the reservation to the buffer's estimate; when
        the task's ceiling does not allow that, fails with the ceiling. */
    method AddInput(page: Page) returns (r: Outcome)
      requires Valid() && state == Accepting
      requires RowsConform(page, factory.sourceTypes)
      modifies this`buffer, this`reservation, memory
      ensures Valid()
      ensures state == Accepting && buffer == old(buffer) + page
      ensures r.Pass? <==> old(memory.reservedBytes) - old(reservation) + EstimatedBytes(rowBytes, buffer) <= memory.maxBytes
      ensures r.Pass? ==> reservation == EstimatedBytes(rowBytes, buffer)
      ensures r.Pass? ==> memory.reservedBytes == old(memory.reservedBytes) - old(reservation) + reservation
      ensures r.Fail? ==> r.error == ExceededMemoryLimit(memory.maxBytes)
      ensures r.Fail? ==> reservation == old(reservation) && memory.reservedBytes == old(memory.reservedBytes)
    {
      var rows := buffer + page;
      assert RowsConform(rows, factory.sourceTypes) by {
        forall i | 0 <= i < |rows| ensures Conforms(rows[i], factory.sourceTypes) {
          if i >= |buffer| {
            assert rows[i] == page[i - |buffer|];
          }
        }
      }
      buffer := rows;
      var ok := TrySetReservation(EstimatedBytes(rowBytes, rows));
      r := if ok then Pass else Fail(ExceededMemoryLimit(memory.maxBytes));
    }

    /** Sorts the buffered rows and switches to producing output; later calls do nothing. */
    method Finish()
      requires Valid()
      modifies this`state, this`sorted
      ensures Valid()
      ensures old(state) == Accepting ==> state == HasOutput && sorted == SortRows(keys, buffer) && position == 0
      ensures old(state) != Accepting ==> state == old(state) && sorted == old(sorted)
    {
      if state == Accepting {
        sorted := SortRows(keys, buffer);
        state := HasOutput;
      }
    }

    /** The sorted rows from the current position, projected onto the output channels.
        At most pageRows rows make a page; once every row was emitted the operator is
        finished and returns no page. */
    method GetOutput() returns (page: Option<Page>)
      requires Valid()
      modifies this`state, this`position
      ensures Valid()
      ensures old(state) != HasOutput ==> page == None && state == old(state) && position == old(position)
      ensures old(state) == HasOutput ==>
                && position == (if |sorted| - old(position) < pageRows then |sorted| else old(position) + pageRows)
                && (state == Finished <==> old(position) == |sorted|)
                && state != Accepting
                && page == if old(position) == |sorted| then None
                           else Some(ProjectAll(sorted[old(position)..position], factory.outputChannels))
    {
      if state != HasOutput {
        page := None;
      } else if position == |sorted| {
        state := Finished;
        page := None;
      } else {
        var n := if |sorted| - position < pageRows then |sorted| - position else pageRows;
        ghost var from := position;
        page := Some(ProjectAll(sorted[position..position + n], factory.outputChannels));
        position := position + n;
        assert page == Some(ProjectAll(sorted[from..position], factory.outputChannels));
      }
    }
  }

  // ---------------------------------------------------------------------------
  // Running the operator over its whole input
  // ---------------------------------------------------------------------------

  /** What running the operator over the pages yields in a task with the given ceiling:
      the buffered rows sorted and projected, or, when the buffer's estimate does not fit,
      the memory-limit error. */
  function OrderByResult(factory: OrderByOperatorFactory, maxBytes: nat, rowBytes: Row -> nat, pages: seq<Page>): Result<seq<Row>>
    requires factory.WellFormed()
  {
    var rows := Flatten(pages);
    if EstimatedBytes(rowBytes, rows) <= maxBytes then Ok(ProjectAll(SortRows(factory.Keys(), rows), factory.outputChannels))
    else Err(ExceededMemoryLimit(maxBytes))
  }

  /** The successful result holds the input rows, projected, in sort order: a
      permutation of the projected input rows, none lost or duplicated. */
  lemma OrderByResultSorted(factory: OrderByOperatorFactory, maxBytes: nat, rowBytes: Row -> nat, pages: seq<Page>)
    requires factory.WellFormed()
    ensures var result, rows := OrderByResult(factory, maxBytes, rowBytes, pages), Flatten(pages);
            && (result.Ok? <==> EstimatedBytes(rowBytes, rows) <= maxBytes)
            && (result.Err? ==> result.error == ExceededMemoryLimit(maxBytes))
            && (result.Ok? ==> |result.value| == |rows|)
            && (result.Ok? ==> multiset(result.value) == multiset(ProjectAll(rows, factory.outputChannels)))
            && (result.Ok? ==> exists sorted :: Sorted(factory.Keys(), sorted) && multiset(sorted) == multiset(rows)
                                               && result.value == ProjectAll(sorted, factory.outputChannels))
  {
    var rows := Flatten(pages);
    ProjectSortPermutation(factory.Keys(), factory.outputChannels, rows);
    SortRowsSorted(factory.Keys(), rows);
    SortRowsPermutation(factory.Keys(), rows);
    var sorted := SortRows(factory.Keys(), rows);
    assert Sorted(factory.Keys(), sorted) && multiset(sorted) == multiset(rows);
  }

  /** The successful result has the factory's output types: each output row holds the
      values of a buffered row at the output channels. */
  lemma OrderByResultConforms(factory: OrderByOperatorFactory, maxBytes: nat, rowBytes: Row -> nat, pages: seq<Page>)
    requires factory.WellFormed() && PagesConform(pages, factory.sourceTypes)
    ensures var result := OrderByResult(factory, maxBytes, rowBytes, pages);
            result.Ok? ==> RowsConform(result.value, factory.OutputTypes())
  {
    var rows := Flatten(pages);
    FlattenConforms(pages, factory.sourceTypes);
    var sorted := SortRows(factory.Keys(), rows);
    SortRowsPermutation(factory.Keys(), rows);
    var output := ProjectAll(sorted, factory.outputChannels);
    forall i | 0 <= i < |output| ensures Conforms(output[i], factory.OutputTypes()) {
      assert sorted[i] in multiset(rows);
      var j :| 0 <= j < |rows| && rows[j] == sorted[i];
      ProjectConforms(factory, sorted[i]);
    }
  }

  /** Projecting a row of the source types gives a row of the output types. */
  lemma ProjectConforms(factory: OrderByOperatorFactory, row: Row)
    requires factory.WellFormed() && Conforms(row, factory.sourceTypes)
    ensures Conforms(Project(row, factory.outputChannels), factory.OutputTypes())
  {
  }

  /** Moving a page break changes neither the output rows nor whether the memory ceiling
      is exceeded. */
  lemma PageBreakIrrelevant(factory: OrderByOperatorFactory, maxBytes: nat, rowBytes: Row -> nat,
                            before: seq<Page>, a: Page, b: Page, after: seq<Page>)
    requires factory.WellFormed()
    ensures OrderByResult(factory, maxBytes, rowBytes, before + [a, b] + after)
         == OrderByResult(factory, maxBytes, rowBytes, before + [a + b] + after)
  {
    PageBreakInvisible(before, a, b, after);
  }

  /** Pushes every page into the operator while it needs input, stopping at the first
      page whose buffering the task's ceiling does not allow. The operator is the task's
      only holder of memory. */
  method PushAll(operator: OrderByOperator, pages: seq<Page>) returns (r: Outcome)
    requires operator.Valid() && operator.state == Accepting && operator.buffer == []
    requires operator.reservation == operator.memory.reservedBytes == 0
    requires PagesConform(pages, operator.factory.sourceTypes)
    modifies operator, operator.memory
    ensures operator.Valid() && operator.state == Accepting
    ensures r.Pass? <==> EstimatedBytes(operator.rowBytes, Flatten(pages)) <= operator.memory.maxBytes
    ensures r.Fail? ==> r.error == ExceededMemoryLimit(operator.memory.maxBytes)
    ensures r.Pass? ==> operator.buffer == Flatten(pages)
  {
    var i := 0;
    assert pages[..0] == [];
    while i < |pages|
      invariant 0 <= i <= |pages|
      invariant operator.Valid() && operator.state == Accepting
      invariant operator.buffer == Flatten(pages[..i])
      invariant operator.reservation == operator.memory.reservedBytes == EstimatedBytes(operator.rowBytes, operator.buffer)
    {
      assert pages[..i + 1][..i] == pages[..i];
      var outcome := operator.AddInput(pages[i]);
      if outcome.Fail? {
        var rest := pages[i + 1..];
        assert pages == pages[..i + 1] + rest;
        FlattenAppend(pages[..i + 1], rest);
        EstimatedBytesAppend(operator.rowBytes, Flatten(pages[..i + 1]), Flatten(rest));
        return outcome;
      }
      i := i + 1;
    }
    assert pages[..i] == pages;
    r := Pass;
  }

  /** Pulls output pages from a finished-input operator until it is finished, and
      concatenates them. */
  method PullAll(operator: OrderByOperator) returns (output: seq<Row>)
    requires operator.Valid() && operator.state == HasOutput && operator.position == 0
    modifies operator
    ensures operator.Valid() && operator.state == Finished
    ensures unchanged(operator`buffer, operator`sorted)
    ensures output == ProjectAll(operator.sorted, operator.factory.outputChannels)
  {
    output := [];
    var finished := operator.IsFinished();
    ghost var sorted, channels := operator.sorted, operator.factory.outputChannels;
    while !finished
      invariant operator.Valid() && operator.state != Accepting
      invariant unchanged(operator`buffer) && operator.sorted == sorted
      invariant finished <==> operator.state == Finished
      invariant output == ProjectAll(sorted[..operator.position], channels)
      invariant finished ==> operator.position == |sorted|
      decreases (if operator.state == HasOutput then 1 else 0) + |sorted| - operator.position
    {
      ghost var from := operator.position;
      var page := operator.GetOutput();
      if page.Some? {
        ProjectPrefixStep(sorted, from, operator.position, channels);
        output := output + page.value;
      }
      finished := operator.IsFinished();
    }
    assert sorted[..operator.position] == sorted;
  }

  /** Projecting a prefix and then the next chunk projects the longer prefix. */
  lemma ProjectPrefixStep(rows: seq<Row>, from: nat, to: nat, channels: seq<nat>)
    requires from <= to <= |rows|
    ensures ProjectAll(rows[..from], channels) + ProjectAll(rows[from..to], channels) == ProjectAll(rows[..to], channels)
  {
    ProjectAllAppend(rows[..from], rows[from..to], channels);
    assert rows[..from] + rows[from..to] == rows[..to];
  }

  /** Drives the operator as a task with the given memory ceiling does: every page is
      pushed in, then the operator is finished and pulled until it is finished; the
      emitted pages are concatenated. */
  method RunOrderBy(factory: OrderByOperatorFactory, maxBytes: nat, rowBytes: Row -> nat, pageRows: nat, pages: seq<Page>)
    returns (r: Result<seq<Row>>)
    requires factory.WellFormed() && pageRows > 0
    requires PagesConform(pages, factory.sourceTypes)
    ensures r == OrderByResult(factory, maxBytes, rowBytes, pages)
  {
    var memory := new TaskMemory(maxBytes);
    var operator := new OrderByOperator(factory, memory, rowBytes, pageRows);
    var pushed := PushAll(operator, pages);
    if pushed.Fail? {
      return Err(pushed.error);
    }
    operator.Finish();
    var output := PullAll(operator);
    r := Ok(output);
  }
}
