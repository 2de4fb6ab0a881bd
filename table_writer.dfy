/** The table-writer source operator: it receives exactly one native split naming the
    shard to write, stages every input page into a column-file handle created on the
    first page, and after finish() emits a single page holding the number of rows
    written, committing the staged shard and registering it with the task output.

    The storage manager, the column-file handle and the task output are external
    collaborators. Their observable effects are kept as ghost logs on the operator:
    the staging handles created, the pages appended, the commits performed and the
    outputs registered. What a handle's append reports is the function `append`. */
module TableWriter {
  import opened Common

  /** Lifecycle of the writer. */
  datatype State = Running | Finishing | Finished

  type ShardId = nat
  type ColumnHandle = nat
  type PlanNodeId = string
  /** Identity of a task output the operator may be handed. */
  type TaskOutputId = nat

  /** A split handed to the operator; only native splits name a shard. */
  datatype Split = NativeSplit(shardId: ShardId) | RemoteSplit

  /** An input page; its contents matter only through what `append` reports for it. */
  datatype Page = Page(positionCount: nat)

  /** The single-row SINGLE_LONG page emitted at the end: the count of rows written. */
  datatype RowCountPage = RowCountPage(rowCount: int)

  /** A staging handle of the storage manager, for one shard and the written columns. */
  datatype ColumnFileHandle = ColumnFileHandle(shardId: ShardId, columns: seq<ColumnHandle>)

  /** What is registered with the task output for a written shard. */
  datatype TableWriterResult = TableWriterResult(shardId: ShardId, nodeIdentifier: string)

  /** One call of addOutput: the task output that received it, and its arguments. */
  datatype OutputRecord = OutputRecord(taskOutput: TaskOutputId, sourceId: PlanNodeId, results: set<TableWriterResult>)

  /** The future returned by isBlocked. */
  datatype Blocked = NotBlocked | Pending

  /** Total of the row counts `append` reports for a sequence of pages. */
  function RowsWritten(append: Page -> nat, pages: seq<Page>): nat
  {
    if pages == [] then 0 else append(pages[0]) + RowsWritten(append, pages[1..])
  }

  /** Appending one more page adds exactly what append reports for it. */
  lemma {:induction false} RowsWrittenSnoc(append: Page -> nat, pages: seq<Page>, p: Page)
    ensures RowsWritten(append, pages + [p]) == RowsWritten(append, pages) + append(p)
  {
    if pages != [] {
      assert (pages + [p])[1..] == pages[1..] + [p];
      RowsWrittenSnoc(append, pages[1..], p);
    }
  }

  /** The output descriptor of the operator and of its factory: one SINGLE_LONG column. */
  function TupleInfos(): (r: seq<TupleInfo>)
    ensures |r| == 1 && r[0] == SingleLong
  {
    [SingleLong]
  }

  class NewTableWriterOperator {
    const sourceId: PlanNodeId
    const nodeIdentifier: string
    const columnHandles: seq<ColumnHandle>
    /** Row count the column-file handle's append reports for a page. */
    const append: Page -> nat

    var state: State
    var rowCount: int
    var input: Option<Split>
    var taskOutput: Option<TaskOutputId>
    var columnFileHandle: Option<ColumnFileHandle>

    /** Effects on the external collaborators. */
    ghost var appended: seq<Page>
    ghost var handlesCreated: nat
    ghost var commits: seq<ColumnFileHandle>
    ghost var registered: seq<OutputRecord>

    ghost predicate Valid()
      reads this
    {
      && rowCount == RowsWritten(append, appended)
      && (columnFileHandle.None? <==> appended == [])
      && handlesCreated == (if columnFileHandle.Some? then 1 else 0)
      && (input.Some? ==> input.value.NativeSplit?)
      && (columnFileHandle.Some? ==>
            input.Some? && columnFileHandle.value == ColumnFileHandle(input.value.shardId, columnHandles))
      && (state != Finished ==> commits == [] && registered == [])
      && (state == Finished ==> commits == if columnFileHandle.Some? then [columnFileHandle.value] else [])
      && (registered != [] ==>
            && columnFileHandle.Some?
            && |registered| == 1
            && registered[0].sourceId == sourceId
            && registered[0].results == {TableWriterResult(columnFileHandle.value.shardId, nodeIdentifier)})
    }

    constructor (sourceId: PlanNodeId, nodeIdentifier: string, columnHandles: seq<ColumnHandle>, append: Page -> nat)
      ensures Valid()
      ensures this.sourceId == sourceId && this.nodeIdentifier == nodeIdentifier
      ensures this.columnHandles == columnHandles && this.append == append
      ensures state == Running && rowCount == 0
      ensures input == None && taskOutput == None && columnFileHandle == None
      ensures appended == [] && handlesCreated == 0 && commits == [] && registered == []
    {
      this.sourceId := sourceId;
      this.nodeIdentifier := nodeIdentifier;
      this.columnHandles := columnHandles;
      this.append := append;
      state := Running;
      rowCount := 0;
      input := None;
      taskOutput := None;
      columnFileHandle := None;
      appended := [];
      handlesCreated := 0;
      commits := [];
      registered := [];
    }

    method SetTaskOutput(t: Option<TaskOutputId>)
      requires Valid()
      modifies this`taskOutput
      ensures Valid() && taskOutput == t
    {
      taskOutput := t;
    }

    /** Accepts the one native split; a null, non-native or second split is refused. */
    method AddSplit(split: Option<Split>) returns (r: Outcome)
      requires Valid()
      modifies this`input
      ensures Valid()
      ensures split.None? ==> r == Fail(NullPointer("split is null"))
      ensures split.Some? && split.value.RemoteSplit? ==> r == Fail(IllegalState("Non-native split added!"))
      ensures split.Some? && split.value.NativeSplit? && old(input).Some? ==>
                r == Fail(IllegalState("Shard Id " + DecimalText(old(input).value.shardId) + " was already set!"))
      ensures r.Pass? <==> split.Some? && split.value.NativeSplit? && old(input).None?
      ensures input == if r.Pass? then split else old(input)
    {
      if split.None? {
        return Fail(NullPointer("split is null"));
      }
      if split.value.RemoteSplit? {
        return Fail(IllegalState("Non-native split added!"));
      }
      if input.Some? {
        return Fail(IllegalState("Shard Id " + DecimalText(input.value.shardId) + " was already set!"));
      }
      input := split;
      r := Pass;
    }

    /** Fails unless a split was assigned; changes nothing. */
    method NoMoreSplits() returns (r: Outcome)
      ensures r.Pass? <==> input.Some?
      ensures r.Fail? ==> r == Fail(IllegalState("No shard id was set!"))
    {
      if input.None? {
        return Fail(IllegalState("No shard id was set!"));
      }
      r := Pass;
    }

    /** RUNNING becomes FINISHING; FINISHING and FINISHED are left alone. */
    method Finish()
      requires Valid()
      modifies this`state
      ensures Valid()
      ensures old(state) == Running ==> state == Finishing
      ensures old(state) != Running ==> state == old(state)
    {
      if state == Running {
        state := Finishing;
      }
    }

    method IsFinished() returns (b: bool)
      ensures b <==> state == Finished
    {
      b := state == Finished;
    }

    /** The writer never waits on anything. */
    method IsBlocked() returns (f: Blocked)
      ensures f == NotBlocked
    {
      f := NotBlocked;
    }

    method NeedsInput() returns (b: bool)
      ensures b <==> state == Running
    {
      b := state == Running;
    }

    /** Stages a page: creates the staging handle for the split's shard on the first
        page, then adds what the handle's append reports to the row count. */
    method AddInput(page: Option<Page>) returns (r: Outcome)
      requires Valid()
      modifies this
      ensures Valid()
      ensures page.None? ==> r == Fail(NullPointer("page is null"))
      ensures page.Some? && old(state) != Running ==> r == Fail(IllegalState("Operator is finishing"))
      ensures page.Some? && old(state) == Running && old(columnFileHandle).None? && old(input).None? ==>
                r.Fail? && r.error.NullPointer?
      ensures r.Pass? <==> page.Some? && old(state) == Running && (old(columnFileHandle).Some? || old(input).Some?)
      ensures r.Pass? ==>
                && rowCount == old(rowCount) + append(page.value)
                && appended == old(appended) + [page.value]
                && columnFileHandle == Some(ColumnFileHandle(input.value.shardId, columnHandles))
                && (old(columnFileHandle).Some? ==> columnFileHandle == old(columnFileHandle))
      ensures r.Fail? ==>
                rowCount == old(rowCount) && appended == old(appended) && columnFileHandle == old(columnFileHandle)
      ensures state == old(state) && input == old(input) && taskOutput == old(taskOutput)
      ensures handlesCreated <= 1 && commits == old(commits) && registered == old(registered)
    {
      if page.None? {
        return Fail(NullPointer("page is null"));
      }
      if state != Running {
        return Fail(IllegalState("Operator is finishing"));
      }
      if columnFileHandle.None? {
        if input.None? {
          // reading the shard id of the unset split is a null dereference
          return Fail(NullPointer(""));
        }
        columnFileHandle := Some(ColumnFileHandle(input.value.shardId, columnHandles));
        handlesCreated := handlesCreated + 1;
      }
      RowsWrittenSnoc(append, appended, page.value);
      rowCount := rowCount + append(page.value);
      appended := appended + [page.value];
      r := Pass;
    }

    /** Emits the row-count page once: only in FINISHING, moving to FINISHED; commits
        and registers the shard first when a handle was ever created. */
    method GetOutput() returns (r: Result<Option<RowCountPage>>)
      requires Valid()
      modifies this`state, this`commits, this`registered
      ensures Valid()
      ensures old(state) != Finishing ==>
                r == Ok(None) && state == old(state) && commits == old(commits) && registered == old(registered)
      ensures old(state) == Finishing ==> state == Finished
      ensures old(state) == Finishing && columnFileHandle.None? ==>
                r == Ok(Some(RowCountPage(rowCount))) && commits == [] && registered == []
      ensures old(state) == Finishing && columnFileHandle.Some? ==>
                && commits == [columnFileHandle.value]
                && (taskOutput.None? ==> r == Err(IllegalState("TaskOutput not set")) && registered == [])
                && (taskOutput.Some? ==>
                      && r == Ok(Some(RowCountPage(rowCount)))
                      && registered == [OutputRecord(taskOutput.value, sourceId, {TableWriterResult(input.value.shardId, nodeIdentifier)})])
    {
      if state != Finishing {
        return Ok(None);
      }
      state := Finished;
      if columnFileHandle.Some? {
        commits := commits + [columnFileHandle.value];
        if taskOutput.None? {
          return Err(IllegalState("TaskOutput not set"));
        }
        registered := registered + [OutputRecord(taskOutput.value, sourceId, {TableWriterResult(input.value.shardId, nodeIdentifier)})];
      }
      r := Ok(Some(RowCountPage(rowCount)));
    }
  }
  /** A driver run over one writer: assign the shard's split, push every page, call
      finish() twice, then pull twice. The first pull returns the total row count that
      append reported, the second returns nothing; the shard is committed and registered
      once if there was a page, and never otherwise. */
  method WriteShard(append: Page -> nat, shard: ShardId, pages: seq<Page>)
    returns (first: Result<Option<RowCountPage>>, second: Result<Option<RowCountPage>>,
             ghost commits: seq<ColumnFileHandle>, ghost registered: seq<OutputRecord>)
    ensures first == Ok(Some(RowCountPage(RowsWritten(append, pages))))
    ensures second == Ok(None)
    ensures commits == if pages == [] then [] else [ColumnFileHandle(shard, [])]
    ensures registered == if pages == [] then [] else [OutputRecord(0, "writer", {TableWriterResult(shard, "node")})]
  {
    var w := new NewTableWriterOperator("writer", "node", [], append);
    w.SetTaskOutput(Some(0));
    var added := w.AddSplit(Some(NativeSplit(shard)));
    var i := 0;
    while i < |pages|
      invariant 0 <= i <= |pages|
      invariant w.Valid() && w.state == Running && w.taskOutput == Some(0)
      invariant w.input == Some(NativeSplit(shard)) && w.append == append
      invariant w.sourceId == "writer" && w.nodeIdentifier == "node" && w.columnHandles == []
      invariant w.appended == pages[..i]
    {
      var needs := w.NeedsInput();
      assert needs;
      var pushed := w.AddInput(Some(pages[i]));
      assert pages[..i + 1] == pages[..i] + [pages[i]];
      i := i + 1;
    }
    assert pages[..i] == pages;
    w.Finish();
    w.Finish();
    first := w.GetOutput();
    second := w.GetOutput();
    commits := w.commits;
    registered := w.registered;
  }
}
