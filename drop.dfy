/**
 * What ZomboDB does when Postgres drops an index, a table, a schema or the
 * extension: for every ZomboDB index in scope it registers a callback that,
 * when the transaction commits, asks Elasticsearch to delete the remote index.
 *
 * The drop hooks work on a backend's state: a read-only view of the catalog and
 * the list of transaction callbacks that `register_xact_callback` appends to.
 * `Registration` and `Registrations` say, as functions, what the hooks append;
 * the lemmas say which indices that covers.
 */
module Drop {
  import opened Wrappers

  /** A Postgres object identifier (`pg_sys::Oid`, an unsigned 32-bit integer). */
  type Oid = x: int | 0 <= x < 0x1_0000_0000

  /** What the catalog records about one index. */
  datatype IndexRow = IndexRow(table: Oid, namespace: Oid, accessMethod: Oid)

  /**
   * The parts of the system catalog the drop hooks consult: every index with its
   * table, schema and access method; each table's list of indices; the oid of the
   * `zombodb` access method; and the oid of the ZomboDB extension.
   */
  datatype Catalog = Catalog(
    indexes: map<Oid, IndexRow>,
    indexLists: map<Oid, seq<Oid>>,
    zdbAccessMethod: Oid,
    zdbExtension: Oid)

  predicate Distinct(s: seq<Oid>) {
    forall j, k :: 0 <= j < k < |s| ==> s[j] != s[k]
  }

  /**
   * Each table's index list holds exactly the indices the catalog attaches to
   * that table, each once.
   */
  ghost predicate Valid(c: Catalog) {
    && (forall t :: t in c.indexLists ==> Distinct(c.indexLists[t]))
    && (forall t, k :: t in c.indexLists && 0 <= k < |c.indexLists[t]| ==>
          c.indexLists[t][k] in c.indexes && c.indexes[c.indexLists[t][k]].table == t)
    && (forall i :: i in c.indexes ==>
          c.indexes[i].table in c.indexLists && i in c.indexLists[c.indexes[i].table])
  }

  /** `is_zdb_index`: the index uses ZomboDB's access method. */
  predicate IsZdbIndex(c: Catalog, index: Oid)
    ensures IsZdbIndex(c, index) ==> index in c.indexes
  {
    index in c.indexes && c.indexes[index].accessMethod == c.zdbAccessMethod
  }

  /** `table.indicies()`: a table's index list (none for a table the catalog lists no indices for). */
  function IndexList(c: Catalog, table: Oid): seq<Oid> {
    if table in c.indexLists then c.indexLists[table] else []
  }

  /** On a consistent catalog a table's index list holds each of its indices once, and nothing else. */
  lemma IndexListOfValid(c: Catalog, table: Oid)
    requires Valid(c)
    ensures Distinct(IndexList(c, table))
    ensures forall i :: i in IndexList(c, table) <==> i in c.indexes && c.indexes[i].table == table
  {
    var s := IndexList(c, table);
    forall i | i in s
      ensures i in c.indexes && c.indexes[i].table == table
    {
      var k :| 0 <= k < |s| && s[k] == i;
    }
  }

  /** The ZomboDB indices attached to `table`. */
  ghost function GovernedOfTable(c: Catalog, table: Oid): set<Oid> {
    set i | i in c.indexes && c.indexes[i].table == table && IsZdbIndex(c, i)
  }

  /** The rows `drop_schema`'s query selects: ZomboDB indices in `schema`. */
  predicate InSchemaQuery(c: Catalog, schema: Oid, i: Oid)
    ensures InSchemaQuery(c, schema, i) <==> IsZdbIndex(c, i) && c.indexes[i].namespace == schema
  {
    i in c.indexes && c.indexes[i].namespace == schema && c.indexes[i].accessMethod == c.zdbAccessMethod
  }

  /** The rows `drop_extension`'s query selects: every ZomboDB index. */
  predicate InExtensionQuery(c: Catalog, i: Oid)
    ensures InExtensionQuery(c, i) <==> IsZdbIndex(c, i)
  {
    i in c.indexes && c.indexes[i].accessMethod == c.zdbAccessMethod
  }

  ghost function GovernedOfSchema(c: Catalog, schema: Oid): set<Oid> {
    set i | i in c.indexes && InSchemaQuery(c, schema, i)
  }

  ghost function Governed(c: Catalog): set<Oid> {
    set i | i in c.indexes && InExtensionQuery(c, i)
  }

  /** `PgXactCallbackEvent`, reduced to the two outcomes of a transaction. */
  datatype XactEvent = Commit | Abort

  /** The Elasticsearch handle built for an index at drop time. */
  datatype Elasticsearch = Elasticsearch(index: Oid)

  /** A registered transaction callback: the event it waits for and the handle it captured. */
  datatype Callback = Callback(event: XactEvent, es: Elasticsearch)

  /** What `drop_index` registers: one commit callback for a ZomboDB index, nothing otherwise. */
  function Registration(c: Catalog, index: Oid): (r: seq<Callback>)
  {
    if IsZdbIndex(c, index) then [Callback(Commit, Elasticsearch(index))] else []
  }

  /** `drop_index`'s decision: a commit callback for its own handle exactly when the index is a ZomboDB index. */
  lemma RegistrationDecision(c: Catalog, index: Oid)
    ensures Registration(c, index) == [] <==> !IsZdbIndex(c, index)
    ensures Registration(c, index) != [] ==> Registration(c, index) == [Callback(Commit, Elasticsearch(index))]
  {
  }

  /** What dropping `indices` one after the other registers. */
  function Registrations(c: Catalog, indices: seq<Oid>): (r: seq<Callback>)
    ensures |r| <= |indices|
  {
    if indices == [] then []
    else Registrations(c, indices[..|indices| - 1]) + Registration(c, indices[|indices| - 1])
  }

  /** Every callback is for one of the dropped indices. */
  lemma {:induction false} RegistrationsSound(c: Catalog, indices: seq<Oid>, cb: Callback)
    requires cb in Registrations(c, indices)
    ensures cb == Callback(Commit, cb.es) && cb.es.index in indices && IsZdbIndex(c, cb.es.index)
  {
    var init := indices[..|indices| - 1];
    var last := indices[|indices| - 1];
    if cb in Registrations(c, init) {
      RegistrationsSound(c, init, cb);
      assert cb.es.index in indices by {
        var k :| 0 <= k < |init| && init[k] == cb.es.index;
        assert indices[k] == cb.es.index;
      }
    } else {
      assert cb in Registration(c, last);
    }
  }

  lemma {:induction false} RegistrationsAppend(c: Catalog, a: seq<Oid>, b: seq<Oid>)
    ensures Registrations(c, a + b) == Registrations(c, a) + Registrations(c, b)
  {
    if b == [] {
      assert a + b == a;
    } else {
      var b' := b[..|b| - 1];
      assert (a + b)[..|a + b| - 1] == a + b';
      RegistrationsAppend(c, a, b');
    }
  }

  /** Every ZomboDB index among `indices` gets its commit callback. */
  lemma {:induction false} RegistrationsComplete(c: Catalog, indices: seq<Oid>, i: Oid)
    requires i in indices && IsZdbIndex(c, i)
    ensures Callback(Commit, Elasticsearch(i)) in Registrations(c, indices)
  {
    var last := indices[|indices| - 1];
    var init := indices[..|indices| - 1];
    if i != last {
      assert i in init by {
        var k :| 0 <= k < |indices| && indices[k] == i;
        assert k < |indices| - 1 && init[k] == i;
      }
      RegistrationsComplete(c, init, i);
    }
  }

  /** When every index is a ZomboDB index, there is one callback per index, in order. */
  lemma {:induction false} RegistrationsOfGoverned(c: Catalog, indices: seq<Oid>)
    requires forall k :: 0 <= k < |indices| ==> IsZdbIndex(c, indices[k])
    ensures |Registrations(c, indices)| == |indices|
    ensures forall k :: 0 <= k < |indices| ==>
              Registrations(c, indices)[k] == Callback(Commit, Elasticsearch(indices[k]))
  {
    if indices != [] {
      RegistrationsOfGoverned(c, indices[..|indices| - 1]);
    }
  }

  /** The set of oids a sequence holds. */
  function Elements(s: seq<Oid>): set<Oid> {
    set i | i in s
  }

  lemma ElementsSnoc(s: seq<Oid>, i: Oid)
    ensures Elements(s + [i]) == Elements(s) + {i}
  {
    assert forall j :: j in s + [i] <==> j in s || j == i;
  }

  /** The ZomboDB indices among `indices`. */
  function GovernedAmong(c: Catalog, indices: seq<Oid>): set<Oid> {
    set i | i in indices && IsZdbIndex(c, i)
  }

  lemma RegistrationsSnoc(c: Catalog, indices: seq<Oid>, i: Oid)
    ensures Registrations(c, indices + [i]) == Registrations(c, indices) + Registration(c, i)
  {
    assert (indices + [i])[..|indices|] == indices;
  }

  /**
   * Locking and dropping one more index extends what has been handled: the
   * callbacks and the locks become those of the longer sequence.
   */
  lemma Handled(c: Catalog, p0: seq<Callback>, l0: set<Oid>, handled: seq<Oid>, i: Oid,
                pending: seq<Callback>, locked: set<Oid>)
    requires pending == p0 + Registrations(c, handled) + Registration(c, i)
    requires locked == l0 + Elements(handled) + {i}
    ensures pending == p0 + Registrations(c, handled + [i])
    ensures locked == l0 + Elements(handled + [i])
  {
    RegistrationsSnoc(c, handled, i);
    ElementsSnoc(handled, i);
  }

  /** Without duplicates, there are as many callbacks as there are ZomboDB indices. */
  lemma {:induction false} RegistrationsCount(c: Catalog, indices: seq<Oid>)
    requires Distinct(indices)
    ensures |Registrations(c, indices)| == |GovernedAmong(c, indices)|
  {
    if indices == [] {
      assert GovernedAmong(c, indices) == {};
    } else {
      var init := indices[..|indices| - 1];
      var last := indices[|indices| - 1];
      assert Distinct(init);
      RegistrationsCount(c, init);
      assert indices == init + [last];
      assert last !in init;
      assert last !in GovernedAmong(c, init);
      assert forall j :: j in indices <==> j in init || j == last;
      if IsZdbIndex(c, last) {
        assert GovernedAmong(c, indices) == GovernedAmong(c, init) + {last};
      } else {
        assert GovernedAmong(c, indices) == GovernedAmong(c, init);
      }
    }
  }

  /** Registrations are not deduplicated: dropping the same indices twice registers twice. */
  lemma NoDeduplication(c: Catalog, indices: seq<Oid>)
    ensures Registrations(c, indices + indices) == Registrations(c, indices) + Registrations(c, indices)
    ensures |Registrations(c, indices + indices)| == 2 * |Registrations(c, indices)|
  {
    RegistrationsAppend(c, indices, indices);
  }

  /** A table drop registers exactly the table's ZomboDB indices, each once. */
  lemma TableRegistrations(c: Catalog, table: Oid)
    requires Valid(c)
    ensures |Registrations(c, IndexList(c, table))| == |GovernedOfTable(c, table)|
    ensures forall i :: Callback(Commit, Elasticsearch(i)) in Registrations(c, IndexList(c, table))
                        <==> i in GovernedOfTable(c, table)
  {
    var list := IndexList(c, table);
    var inList := GovernedAmong(c, list);
    IndexListOfValid(c, table);
    assert inList == GovernedOfTable(c, table);
    RegistrationsCount(c, list);
    forall i | Callback(Commit, Elasticsearch(i)) in Registrations(c, list)
      ensures i in GovernedOfTable(c, table)
    {
      RegistrationsSound(c, list, Callback(Commit, Elasticsearch(i)));
    }
    forall i | i in GovernedOfTable(c, table)
      ensures Callback(Commit, Elasticsearch(i)) in Registrations(c, list)
    {
      RegistrationsComplete(c, list, i);
    }
  }

  /** `rows` is what a query whose selection is `InSchemaQuery(c, schema, _)` returns. */
  ghost predicate AnswersSchemaQuery(c: Catalog, schema: Oid, rows: seq<Option<Oid>>) {
    && NullFree(rows)
    && Distinct(Values(rows))
    && forall i :: i in Values(rows) <==> InSchemaQuery(c, schema, i)
  }

  /** `rows` is what a query whose selection is `InExtensionQuery(c, _)` returns. */
  ghost predicate AnswersExtensionQuery(c: Catalog, rows: seq<Option<Oid>>) {
    && NullFree(rows)
    && Distinct(Values(rows))
    && forall i :: i in Values(rows) <==> InExtensionQuery(c, i)
  }

  /**
   * Dropping the rows of a query that selects ZomboDB indices registers one
   * callback per row, in row order, and so one per selected index.
   */
  lemma {:induction false} QueryRegistrations(c: Catalog, rows: seq<Option<Oid>>, selected: set<Oid>)
    requires NullFree(rows) && Distinct(Values(rows))
    requires forall i :: i in Values(rows) <==> i in selected
    requires forall i :: i in selected ==> IsZdbIndex(c, i)
    ensures |Registrations(c, Values(rows))| == |rows| == |selected|
    ensures forall k :: 0 <= k < |rows| ==>
              Registrations(c, Values(rows))[k] == Callback(Commit, Elasticsearch(rows[k].value))
  {
    var s := Values(rows);
    RegistrationsOfGoverned(c, s);
    RegistrationsCount(c, s);
    assert GovernedAmong(c, s) == selected;
  }

  lemma SchemaRegistrations(c: Catalog, schema: Oid, rows: seq<Option<Oid>>)
    requires AnswersSchemaQuery(c, schema, rows)
    ensures |Registrations(c, Values(rows))| == |GovernedOfSchema(c, schema)|
    ensures forall i :: Callback(Commit, Elasticsearch(i)) in Registrations(c, Values(rows))
                        <==> i in GovernedOfSchema(c, schema)
  {
    QueryRegistrations(c, rows, GovernedOfSchema(c, schema));
    forall i | i in GovernedOfSchema(c, schema)
      ensures Callback(Commit, Elasticsearch(i)) in Registrations(c, Values(rows))
    {
      RegistrationsComplete(c, Values(rows), i);
    }
  }

  lemma ExtensionRegistrations(c: Catalog, rows: seq<Option<Oid>>)
    requires AnswersExtensionQuery(c, rows)
    ensures |Registrations(c, Values(rows))| == |Governed(c)|
    ensures forall i :: Callback(Commit, Elasticsearch(i)) in Registrations(c, Values(rows))
                        <==> i in Governed(c)
  {
    QueryRegistrations(c, rows, Governed(c));
    forall i | i in Governed(c)
      ensures Callback(Commit, Elasticsearch(i)) in Registrations(c, Values(rows))
    {
      RegistrationsComplete(c, Values(rows), i);
    }
  }

  // Query result rows: `get_one::<Oid>()` gives `None` for a NULL column.

  predicate NullFree(rows: seq<Option<Oid>>) {
    forall k :: 0 <= k < |rows| ==> rows[k].Some?
  }

  /** The oids of rows that hold no NULL. */
  function Values(rows: seq<Option<Oid>>): (s: seq<Oid>)
    requires NullFree(rows)
    ensures |s| == |rows| && forall k :: 0 <= k < |rows| ==> s[k] == rows[k].value
  {
    if rows == [] then [] else Values(rows[..|rows| - 1]) + [rows[|rows| - 1].value]
  }

  /** The position of the first NULL row, or the number of rows if there is none. */
  function FirstNull(rows: seq<Option<Oid>>): (n: nat)
    ensures n <= |rows| && NullFree(rows[..n])
    ensures n < |rows| ==> rows[n].None?
  {
    if rows == [] then 0
    else if rows[0].None? then 0
    else
      var n := FirstNull(rows[1..]);
      assert rows[..n + 1] == [rows[0]] + rows[1..][..n];
      n + 1
  }

  lemma {:induction false} FirstNullAt(rows: seq<Option<Oid>>, n: nat)
    requires n <= |rows| && NullFree(rows[..n])
    requires n < |rows| ==> rows[n].None?
    ensures FirstNull(rows) == n
  {
    if n > 0 {
      assert rows[1..][..n - 1] == rows[1..n];
      FirstNullAt(rows[1..], n - 1);
    }
  }

  /** The oids of the rows a single pass handles before it meets a NULL. */
  function OidsBeforeNull(rows: seq<Option<Oid>>): seq<Oid> {
    Values(rows[..FirstNull(rows)])
  }

  /**
   * A pass that has handled the oids `handled`, one per leading row, and then
   * stopped at a NULL row or at the end, has handled `OidsBeforeNull(rows)`.
   */
  lemma ScanResult(rows: seq<Option<Oid>>, handled: seq<Oid>)
    requires |handled| <= |rows|
    requires forall k :: 0 <= k < |handled| ==> rows[k] == Some(handled[k])
    requires |handled| < |rows| ==> rows[|handled|].None?
    ensures OidsBeforeNull(rows) == handled
    ensures NullFree(rows) <==> |handled| == |rows|
  {
    var n := |handled|;
    assert NullFree(rows[..n]);
    FirstNullAt(rows, n);
    assert Values(rows[..n]) == handled;
  }

  /** The callbacks in `pending` that wait for `event`, in order. */
  function WaitingFor(pending: seq<Callback>, event: XactEvent): (r: seq<Elasticsearch>)
    ensures |r| <= |pending|
  {
    if pending == [] then []
    else WaitingFor(pending[..|pending| - 1], event)
         + (if pending[|pending| - 1].event == event then [pending[|pending| - 1].es] else [])
  }

  lemma {:induction false} WaitingForAppend(a: seq<Callback>, b: seq<Callback>, event: XactEvent)
    ensures WaitingFor(a + b, event) == WaitingFor(a, event) + WaitingFor(b, event)
  {
    if b == [] {
      assert a + b == a;
    } else {
      assert (a + b)[..|a + b| - 1] == a + b[..|b| - 1];
      WaitingForAppend(a, b[..|b| - 1], event);
    }
  }

  lemma {:induction false} NoneWaiting(b: seq<Callback>, event: XactEvent)
    requires forall k :: 0 <= k < |b| ==> b[k].event != event
    ensures WaitingFor(b, event) == []
  {
    if b != [] {
      NoneWaiting(b[..|b| - 1], event);
    }
  }

  /**
   * The drop hooks only ever register for `Commit`: whatever they append, the
   * callbacks waiting for `Abort` stay as they were.
   */
  lemma AbortCallbacksUnchanged(c: Catalog, pending: seq<Callback>, indices: seq<Oid>)
    ensures WaitingFor(pending + Registrations(c, indices), Abort) == WaitingFor(pending, Abort)
  {
    var r := Registrations(c, indices);
    WaitingForAppend(pending, r, Abort);
    forall k | 0 <= k < |r|
      ensures r[k].event != Abort
    {
      RegistrationsSound(c, indices, r[k]);
    }
    NoneWaiting(r, Abort);
  }

  /** The response of the remote delete request. */
  datatype DeleteResponse = Deleted | DeleteFailed(reason: string)

  /** How a callback ends: it returns, or it raises an error (which would make Postgres panic). */
  datatype CallbackEnd = Returned | Raised(reason: string)

  /** `Result::ok`: the error is turned into `None`. */
  function Ok(response: DeleteResponse): Option<()> {
    if response.Deleted? then Some(()) else None
  }

  /**
   * Running a registered callback: it asks for the index its handle was built for
   * to be deleted and throws the response away with `.ok()`, so it returns
   * whatever the remote side answers (`src/executor_manager/drop.rs`, lines 22-24).
   */
  function RunCallback(cb: Callback, response: DeleteResponse): (r: (Elasticsearch, CallbackEnd))
    ensures r.0 == cb.es
    ensures r.1 == Returned
  {
    (cb.es, Returned)
  }

  /**
   * The callback the comment at `src/executor_manager/drop.rs`, lines 22-23,
   * rules out: one that raised the delete's error instead of discarding it
   * with `.ok()`.
   */
  function EndIfPropagated(response: DeleteResponse): CallbackEnd {
    if Ok(response).Some? then Returned else Raised(response.reason)
  }

  /**
   * Discarding the error is what keeps the callback from raising: the callback
   * as written and one that passed the error on end alike exactly when `.ok()`
   * has a value, and the latter raises the delete's own reason otherwise.
   */
  lemma DiscardingPreventsRaise(cb: Callback, response: DeleteResponse)
    ensures RunCallback(cb, response).1 == EndIfPropagated(response) <==> Ok(response).Some?
    ensures Ok(response).Some? <==> response.Deleted?
    ensures response.DeleteFailed? ==> EndIfPropagated(response) == Raised(response.reason)
  {
  }

  /** `SpiTupleTable`: the rows of a query result and a cursor over them. */
  class TupleTable {
    const rows: seq<Option<Oid>>
    /** How many rows `Next` has moved past; the current row is `rows[position - 1]`. */
    var position: nat

    constructor (rows: seq<Option<Oid>>)
      ensures this.rows == rows && position == 0
    {
      this.rows := rows;
      position := 0;
    }

    /** Moves to the next row; says whether there was one. */
    method Next() returns (more: bool)
      modifies this`position
      ensures more == (old(position) < |rows|)
      ensures position == if more then old(position) + 1 else old(position)
    {
      more := position < |rows|;
      if more {
        position := position + 1;
      }
    }

    /** The first column of the current row. */
    method GetOne() returns (v: Option<Oid>)
      requires 0 < position <= |rows|
      ensures v == rows[position - 1]
    {
      v := rows[position - 1];
    }
  }

  /** How a scan of query rows ended. */
  datatype ScanEnd = Completed | NullOid

  /** The state of one Postgres backend that the drop hooks read and change. */
  class Backend {
    /** The catalog as the drop hooks see it; they never change it. */
    var catalog: Catalog
    /** The callbacks registered with `register_xact_callback`, in order. */
    var pending: seq<Callback>
    /** The indices opened with `AccessExclusiveLock` so far. */
    ghost var locked: set<Oid>

    constructor (catalog: Catalog)
      ensures this.catalog == catalog && pending == [] && locked == {}
    {
      this.catalog := catalog;
      pending := [];
      locked := {};
    }

    /** `register_xact_callback`. */
    method RegisterXactCallback(event: XactEvent, es: Elasticsearch)
      modifies this`pending
      ensures pending == old(pending) + [Callback(event, es)]
    {
      pending := pending + [Callback(event, es)];
    }

    /** `PgRelation::with_lock(index, AccessExclusiveLock)`, recorded as a lock taken. */
    method LockIndex(index: Oid)
      modifies this`locked
      ensures locked == old(locked) + {index}
    {
      locked := locked + {index};
    }

    /** `drop_index`: one commit callback if the index is a ZomboDB index, nothing otherwise. */
    method DropIndex(index: Oid)
      modifies this`pending
      ensures pending == old(pending) + Registration(catalog, index)
      ensures |pending| == |old(pending)| + (if IsZdbIndex(catalog, index) then 1 else 0)
    {
      if IsZdbIndex(catalog, index) {
        var es := Elasticsearch(index);
        RegisterXactCallback(Commit, es);
      }
    }

    /** Opens an index with `AccessExclusiveLock` and hands it to `drop_index`. */
    method LockAndDrop(index: Oid)
      modifies this`pending, this`locked
      ensures pending == old(pending) + Registration(catalog, index)
      ensures locked == old(locked) + {index}
    {
      LockIndex(index);
      DropIndex(index);
    }

    /** `drop_table`: locks and drops each index on the table's index list, in list order. */
    method DropTable(table: Oid)
      modifies this`pending, this`locked
      ensures pending == old(pending) + Registrations(catalog, IndexList(catalog, table))
      ensures locked == old(locked) + Elements(IndexList(catalog, table))
      ensures Valid(catalog) ==> |pending| == |old(pending)| + |GovernedOfTable(catalog, table)|
    {
      var indices := IndexList(catalog, table);
      ghost var c, p0, l0 := catalog, pending, locked;
      for k := 0 to |indices|
        invariant pending == p0 + Registrations(c, indices[..k])
        invariant locked == l0 + Elements(indices[..k])
      {
        LockAndDrop(indices[k]);
        Handled(c, p0, l0, indices[..k], indices[k], pending, locked);
        assert indices[..k + 1] == indices[..k] + [indices[k]];
      }
      assert indices[..|indices|] == indices;
      if Valid(catalog) {
        TableRegistrations(catalog, table);
      }
    }

    /**
     * One turn of `drop_index_oids`'s loop on the current row: a NULL row stops
     * the pass with nothing changed; otherwise the row's index is locked and
     * dropped and the cursor moves to the next row.
     */
    method DropCurrentRow(table: TupleTable) returns (oid: Option<Oid>, more: bool)
      requires 0 < table.position <= |table.rows|
      modifies this`pending, this`locked, table`position
      ensures oid == table.rows[old(table.position) - 1]
      ensures oid.None? ==> pending == old(pending) && locked == old(locked) && table.position == old(table.position)
      ensures oid.Some? ==>
                && pending == old(pending) + Registration(catalog, oid.value)
                && locked == old(locked) + {oid.value}
                && more == (old(table.position) < |table.rows|)
                && table.position == (if more then old(table.position) + 1 else old(table.position))
    {
      oid := table.GetOne();
      more := false;
      if oid.Some? {
        LockAndDrop(oid.value);
        more := table.Next();
      }
    }

    /**
     * `drop_index_oids`: a single pass over the remaining rows, locking and
     * dropping the index each row names. A NULL row stops the pass with an error
     * (the `expect` panics); the rows before it have been handled.
     */
    method DropIndexOids(table: TupleTable) returns (end: ScanEnd)
      requires table.position <= |table.rows|
      modifies this`pending, this`locked, table`position
      ensures table.position == |table.rows| || end == NullOid
      ensures end == Completed <==> NullFree(old(table.rows[table.position..]))
      ensures pending == old(pending) + Registrations(catalog, OidsBeforeNull(old(table.rows[table.position..])))
      ensures locked == old(locked) + Elements(OidsBeforeNull(old(table.rows[table.position..])))
    {
      ghost var rest := table.rows[table.position..];
      ghost var start := table.position;
      ghost var handled: seq<Oid> := [];
      ghost var c, p0, l0 := catalog, pending, locked;
      var more := table.Next();
      while more
        invariant table.rows[start..] == rest
        invariant 0 <= |handled| <= |rest|
        invariant table.position == start + |handled| + (if more then 1 else 0)
        invariant more <==> |handled| < |rest|
        invariant forall k :: 0 <= k < |handled| ==> rest[k] == Some(handled[k])
        invariant catalog == c
        invariant pending == p0 + Registrations(c, handled)
        invariant locked == l0 + Elements(handled)
        decreases |rest| - |handled|
      {
        var oid;
        oid, more := DropCurrentRow(table);
        if oid.None? {
          ScanResult(rest, handled);
          return NullOid;
        }
        Handled(c, p0, l0, handled, oid.value, pending, locked);
        handled := handled + [oid.value];
      }
      ScanResult(rest, handled);
      return Completed;
    }

    /** `drop_schema`: drops every row of the query for ZomboDB indices in the schema. */
    method DropSchema(schema: Oid, rows: seq<Option<Oid>>)
      requires AnswersSchemaQuery(catalog, schema, rows)
      modifies this`pending, this`locked
      ensures pending == old(pending) + Registrations(catalog, Values(rows))
      ensures |pending| == |old(pending)| + |GovernedOfSchema(catalog, schema)|
      ensures forall i :: Callback(Commit, Elasticsearch(i)) in pending[|old(pending)|..]
                          <==> i in GovernedOfSchema(catalog, schema)
      ensures locked == old(locked) + Elements(Values(rows))
    {
      var table := new TupleTable(rows);
      var end := DropIndexOids(table);
      FirstNullAt(rows, |rows|);
      assert rows[..|rows|] == rows;
      SchemaRegistrations(catalog, schema, rows);
      assert pending[|old(pending)|..] == Registrations(catalog, Values(rows));
    }

    /**
     * `drop_extension`: only when the dropped extension is ZomboDB's, drops every
     * row of the query for ZomboDB indices; any other extension adds nothing.
     */
    method DropExtension(extension: Oid, rows: seq<Option<Oid>>)
      requires extension == catalog.zdbExtension ==> AnswersExtensionQuery(catalog, rows)
      modifies this`pending, this`locked
      ensures extension != catalog.zdbExtension ==> pending == old(pending) && locked == old(locked)
      ensures extension == catalog.zdbExtension ==>
                pending == old(pending) + Registrations(catalog, Values(rows))
                && |pending| == |old(pending)| + |Governed(catalog)|
                && locked == old(locked) + Elements(Values(rows))
    {
      if extension == catalog.zdbExtension {
        var table := new TupleTable(rows);
        var end := DropIndexOids(table);
        FirstNullAt(rows, |rows|);
        assert rows[..|rows|] == rows;
        ExtensionRegistrations(catalog, rows);
      }
    }
  }
}
