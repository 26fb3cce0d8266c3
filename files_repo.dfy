/** The files repository: a table of file rows keyed by identity, the
    create/update operations on it, and the claim that hands one uploaded
    file to a storage worker. Every method is one atomic step against the
    table, as one SQL statement is. */
module FilesRepo {
  import opened Primitive
  import opened FileDomain

  // ---------------------------------------------------------------------
  // The INSERT that creates a file row.

  /** A value bound to a placeholder of an SQL statement. */
  datatype SqlValue =
    | IdArg(id: ID)
    | TextArg(text: string)
    | IntArg(n: int)
    | TimeArg(t: Time)

  /** The columns the insert fills, one per placeholder `$1` to `$7`. */
  const CreateFileColumns: seq<string> :=
    ["user_id", "type", "content_type", "name", "size", "status", "created_at"]

  /** The row the insert produces from its arguments, read by position; the
      columns it does not name (url, updated_at) start empty. There is no row
      when the number of arguments differs from the number of placeholders
      or an argument has the wrong kind: the driver refuses such a call. */
  function InsertedRow(id: ID, args: seq<SqlValue>): (r: Option<File>)
    ensures r.Some? ==> |args| == |CreateFileColumns|
    ensures r.Some? ==> r.value.id == id && r.value.url == "" && r.value.updatedAt == None
  {
    if |args| == |CreateFileColumns|
       && args[0].IdArg? && args[1].TextArg? && args[2].TextArg? && args[3].TextArg?
       && args[4].IntArg? && args[5].IntArg? && args[6].TimeArg?
    then Some(File(id, args[6].t, None, args[0].id, args[1].text, args[2].text,
                   args[3].text, args[4].n, args[5].n, ""))
    else None
  }

  /** The arguments `Create` passes as written: six values, no creation time. */
  function CreateArgsAsWritten(f: File): seq<SqlValue>
  {
    [IdArg(f.userId), TextArg(f.fileType), TextArg(f.contentType), TextArg(f.name),
     IntArg(f.size), IntArg(f.status)]
  }

  /** The arguments `Create` evidently means to pass: the six above and the
      creation time it takes from the clock. */
  function CreateArgs(f: File, createdAt: Time): seq<SqlValue>
  {
    CreateArgsAsWritten(f) + [TimeArg(createdAt)]
  }

  /** As written, the insert is one argument short, so it never produces a
      row and `Create` always reports a store failure. */
  lemma CreateAsWrittenInsertsNothing(f: File, id: ID)
    ensures |CreateArgsAsWritten(f)| + 1 == |CreateFileColumns|
    ensures InsertedRow(id, CreateArgsAsWritten(f)) == None
  {
  }

  /** The row `Create` stores for the caller's record: the caller's owner,
      type, content type, name, size and status, the new identity and the
      creation time; no URL and no update time. */
  function NewRow(f: File, id: ID, createdAt: Time): File
  {
    f.(id := id, createdAt := createdAt, updatedAt := None, url := "")
  }

  /** With the creation time supplied, the insert stores exactly the
      caller's fields. */
  lemma CreateArgsInsertCallerFields(f: File, id: ID, createdAt: Time)
    ensures InsertedRow(id, CreateArgs(f, createdAt)) == Some(NewRow(f, id, createdAt))
  {
  }

  // ---------------------------------------------------------------------
  // The claim queue, stated on table values.

  /** The files waiting for a storage worker. */
  function PendingIds(rows: map<ID, File>): set<ID>
  {
    set id | id in rows && rows[id].status == Code(UploadedByClient)
  }

  /** One claim: `id` was waiting, its row now has status
      StorageUploadInProgress and update time `now`, and no other row
      changed. */
  ghost predicate ClaimStep(before: map<ID, File>, after: map<ID, File>, id: ID, now: Time)
  {
    && id in PendingIds(before)
    && after == before[id := before[id].(status := Code(StorageUploadInProgress), updatedAt := Some(now))]
  }

  /** Auxiliary: a claim is the lifecycle's transition from UploadedByClient
      to StorageUploadInProgress. */
  lemma ClaimIsLegalTransition(before: map<ID, File>, after: map<ID, File>, id: ID, now: Time)
    requires ClaimStep(before, after, id, now)
    ensures id in before && id in after
    ensures Named(before[id].status) == Some(UploadedByClient)
    ensures Named(after[id].status) == Some(StorageUploadInProgress)
    ensures LegalTransition(UploadedByClient, StorageUploadInProgress)
  {
    NamedCode(UploadedByClient);
    NamedCode(StorageUploadInProgress);
  }

  /** A claim removes exactly the claimed file from the waiting set. */
  lemma ClaimRemovesFromPending(before: map<ID, File>, after: map<ID, File>, id: ID, now: Time)
    requires ClaimStep(before, after, id, now)
    ensures PendingIds(after) == PendingIds(before) - {id}
    ensures |PendingIds(after)| == |PendingIds(before)| - 1
  {
  }

  /** Two successive claims, with no other update between them, never hand
      out the same file. */
  lemma SuccessiveClaimsDistinct(t0: map<ID, File>, t1: map<ID, File>, t2: map<ID, File>, a: ID, b: ID, now1: Time, now2: Time)
    requires ClaimStep(t0, t1, a, now1) && ClaimStep(t1, t2, b, now2)
    ensures a != b
  {
    ClaimRemovesFromPending(t0, t1, a, now1);
  }

  /** A run of claims: `states[i + 1]` is `states[i]` after claiming
      `ids[i]` at time `times[i]`. */
  ghost predicate ClaimRun(states: seq<map<ID, File>>, ids: seq<ID>, times: seq<Time>)
  {
    && |states| == |ids| + 1
    && |times| == |ids|
    && forall i :: 0 <= i < |ids| ==> ClaimStep(states[i], states[i + 1], ids[i], times[i])
  }

  /** The identities a run of claims has handed out. */
  ghost function Handed(ids: seq<ID>): set<ID>
  {
    set id | id in ids
  }

  /** Every prefix of a run of claims is a run of claims. */
  lemma ClaimRunPrefix(states: seq<map<ID, File>>, ids: seq<ID>, times: seq<Time>)
    requires ClaimRun(states, ids, times) && |ids| > 0
    ensures ClaimRun(states[..|ids|], ids[..|ids| - 1], times[..|ids| - 1])
  {
    var n := |ids|;
    forall i | 0 <= i < n - 1
      ensures ClaimStep(states[..n][i], states[..n][i + 1], ids[..n - 1][i], times[..n - 1][i])
    {
      assert ClaimStep(states[i], states[i + 1], ids[i], times[i]);
    }
  }

  /** A run of claims hands out distinct files, all of which were waiting at
      the start, and shrinks the waiting set by one per claim. So a table
      with N waiting files yields exactly N claims before the queue is
      empty. */
  lemma {:induction false} ClaimRunDrains(states: seq<map<ID, File>>, ids: seq<ID>, times: seq<Time>)
    requires ClaimRun(states, ids, times)
    ensures forall i, j :: 0 <= i < j < |ids| ==> ids[i] != ids[j]
    ensures Handed(ids) <= PendingIds(states[0])
    ensures PendingIds(states[|ids|]) == PendingIds(states[0]) - Handed(ids)
    ensures |PendingIds(states[|ids|])| == |PendingIds(states[0])| - |ids|
  {
    var n := |ids|;
    if n == 0 {
      assert Handed(ids) == {};
    } else {
      var ids' := ids[..n - 1];
      ClaimRunPrefix(states, ids, times);
      ClaimRunDrains(states[..n], ids', times[..n - 1]);
      var id := ids[n - 1];
      assert ClaimStep(states[n - 1], states[n], id, times[n - 1]);
      ClaimRemovesFromPending(states[n - 1], states[n], id, times[n - 1]);
      assert ids == ids' + [id];
      HandOutOneMore(ids', id);
    }
  }

  /** Appending an identity not yet handed out keeps the identities
      distinct and adds it to the handed-out set. */
  lemma HandOutOneMore(ids: seq<ID>, id: ID)
    requires forall i, j :: 0 <= i < j < |ids| ==> ids[i] != ids[j]
    requires id !in Handed(ids)
    ensures forall i, j :: 0 <= i < j < |ids + [id]| ==> (ids + [id])[i] != (ids + [id])[j]
    ensures Handed(ids + [id]) == Handed(ids) + {id}
  {
    forall i, j | 0 <= i < j < |ids| + 1
      ensures (ids + [id])[i] != (ids + [id])[j]
    {
      if j == |ids| {
        assert ids[i] in Handed(ids);
      }
    }
  }

  // ---------------------------------------------------------------------
  // The table.

  class FilesTable {
    /** The stored rows, keyed by identity. */
    var rows: map<ID, File>
    /** The next value of the identity sequence. */
    var nextId: ID

    ghost predicate Valid()
      reads this
    {
      forall id :: id in rows ==> rows[id].id == id && id < nextId
    }

    constructor ()
      ensures Valid() && rows == map[] && nextId == 1
    {
      rows := map[];
      nextId := 1;
    }

    /** Inserts the caller's record under a fresh identity and gives the
        caller back its record with the identity and creation time filled in
        (the source writes both through its pointer argument). */
    method Create(f: File, now: Time) returns (created: File)
      requires Valid()
      modifies this
      ensures Valid()
      ensures created.id !in old(rows)
      ensures created == f.(id := created.id, createdAt := now)
      ensures rows == old(rows)[created.id := NewRow(f, created.id, now)]
    {
      var id := nextId;
      CreateArgsInsertCallerFields(f, id, now);
      var row := InsertedRow(id, CreateArgs(f, now)).value;
      rows := rows[id := row];
      nextId := nextId + 1;
      created := f.(id := id, createdAt := now);
    }

    /** Sets the status of one row to any value, whatever its current
        status; reports NotFound when no row has the identity. */
    method UpdateStatus(id: ID, status: FileStatus, now: Time) returns (o: Outcome)
      requires Valid()
      modifies this`rows
      ensures Valid()
      ensures o == Done <==> id in old(rows)
      ensures o != Done ==> o == Fail(NotFound) && rows == old(rows)
      ensures o == Done ==> rows == old(rows)[id := old(rows)[id].(status := status, updatedAt := Some(now))]
    {
      if id !in rows {
        return Fail(NotFound);
      }
      rows := rows[id := rows[id].(status := status, updatedAt := Some(now))];
      o := Done;
    }

    /** Claims some file that is waiting for storage: in one step its status
        becomes StorageUploadInProgress, and the claimed row is returned
        (without its URL, which the statement does not return). Which waiting
        file is claimed is not determined. With none waiting, reports
        NotFound and changes nothing. */
    method GetForUploading(now: Time) returns (r: Result<File>)
      requires Valid()
      modifies this`rows
      ensures Valid()
      ensures PendingIds(old(rows)) == {} ==> r == Err(NotFound) && rows == old(rows)
      ensures PendingIds(old(rows)) != {} ==> r.Ok? && ClaimStep(old(rows), rows, r.value.id, now)
      ensures r.Ok? ==> r.value == rows[r.value.id].(url := "")
    {
      var pending := PendingIds(rows);
      if pending == {} {
        return Err(NotFound);
      }
      var id :| id in pending;
      var claimed := rows[id].(status := Code(StorageUploadInProgress), updatedAt := Some(now));
      rows := rows[id := claimed];
      r := Ok(claimed.(url := ""));
    }

    /** Records a finished storage transfer: status UploadedToStorage and the
        URL in one step, whatever the current status; reports NotFound when
        no row has the identity. */
    method UpdateStatusAndSetURL(id: ID, url: string, now: Time) returns (o: Outcome)
      requires Valid()
      modifies this`rows
      ensures Valid()
      ensures o == Done <==> id in old(rows)
      ensures o != Done ==> o == Fail(NotFound) && rows == old(rows)
      ensures o == Done ==> rows == old(rows)[id := old(rows)[id].(status := Code(UploadedToStorage), url := url, updatedAt := Some(now))]
    {
      if id !in rows {
        return Fail(NotFound);
      }
      rows := rows[id := rows[id].(status := Code(UploadedToStorage), url := url, updatedAt := Some(now))];
      o := Done;
    }

    /** Reads one row. An absent identity is reported as a store failure,
        not as NotFound. */
    method GetByID(id: ID) returns (r: Result<File>)
      requires Valid()
      ensures r.Ok? <==> id in rows
      ensures r.Ok? ==> r.value == rows[id] && r.value.id == id
      ensures r.Err? ==> r.error == StoreFailure
    {
      if id !in rows {
        return Err(StoreFailure);
      }
      r := Ok(rows[id].(id := id));
    }
  }

  /** Two claims in a row on the same table hand out different files, and
      the second finds nothing when only one file was waiting. */
  method ClaimTwice(t: FilesTable, now: Time) returns (first: Result<File>, second: Result<File>)
    requires t.Valid()
    modifies t
    ensures first.Ok? && second.Ok? ==> first.value.id != second.value.id
    ensures |PendingIds(old(t.rows))| == 1 ==> first.Ok? && second == Err(NotFound)
  {
    ghost var t0 := t.rows;
    first := t.GetForUploading(now);
    ghost var t1 := t.rows;
    second := t.GetForUploading(now);
    if first.Ok? {
      ClaimRemovesFromPending(t0, t1, first.value.id, now);
      if second.Ok? {
        SuccessiveClaimsDistinct(t0, t1, t.rows, first.value.id, second.value.id, now, now);
      }
    }
  }

  /** Reading a file back right after creating it gives the record the
      caller got, except that the stored row has no update time and no URL. */
  method CreateThenRead(t: FilesTable, f: File, now: Time) returns (created: File, read: Result<File>)
    requires t.Valid()
    modifies t
    ensures t.Valid()
    ensures read == Ok(created.(updatedAt := None, url := ""))
  {
    created := t.Create(f, now);
    read := t.GetByID(created.id);
  }
}
