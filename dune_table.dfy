/** The Dune table API as the scripts call it: the create request and its
    schema, the rule that a failed create is harmless when the table already
    exists, records as ordered key/value pairs, and insert requests. */
module DuneTable {
  import opened Wrappers
  import opened Py
  import opened Text

  /** One column of a create schema: `{"name": .., "type": ..}`. */
  datatype ColumnSpec = ColumnSpec(name: string, typ: string)

  /** A row dict sent in an insert, its keys in insertion order. */
  type Record = seq<(string, Value)>

  /** `{"table_name": .., "schema": .., "is_private": False}`. */
  datatype CreateRequest = CreateRequest(tableName: string, schema: seq<ColumnSpec>, isPrivate: bool)

  /** `{"table_name": .., "data": [...]}`. */
  datatype InsertRequest = InsertRequest(tableName: string, data: seq<Record>)

  /** The keys of a record, in order. */
  function Keys(r: Record): (ks: seq<string>)
    ensures |ks| == |r|
  {
    seq(|r|, i requires 0 <= i < |r| => r[i].0)
  }

  /** The column names of a schema, in order. */
  function ColumnNames(schema: seq<ColumnSpec>): (ns: seq<string>)
    ensures |ns| == |schema|
  {
    seq(|schema|, i requires 0 <= i < |schema| => schema[i].name)
  }

  /** The create request `ensure_table` posts: a public table. */
  function CreateRequestFor(tableName: string, schema: seq<ColumnSpec>): (q: CreateRequest)
    ensures !q.isPrivate && q.tableName == tableName && q.schema == schema
  {
    CreateRequest(tableName, schema, false)
  }

  /** The error text says "already exists", in any letter case. */
  predicate AlreadyExists(message: string) {
    Contains(Lower(message), "already exists")
  }

  /** The `except` clause of `ensure_table`: given the text of the exception
      the create call raised (None when it succeeded), the exception that
      escapes, if any. */
  function EnsureTable(createFailure: Option<string>): (r: Option<PyError>)
    ensures r.None? <==> createFailure.None? || AlreadyExists(createFailure.value)
    ensures r.Some? ==> r.value == RemoteError(createFailure.value)
  {
    match createFailure
    case None => None
    case Some(message) => if AlreadyExists(message) then None else Some(RemoteError(message))
  }

  /** An illustration of AlreadyExistsAnywhere on one message: letter case
      does not matter to the test. */
  lemma AlreadyExistsAnyCase()
    ensures AlreadyExists("Table ALREADY EXISTS")
  {
    var lowered := Lower("Table ALREADY EXISTS");
    assert lowered[6..20] == "already exists";
    assert OccursAt(lowered, "already exists", 6);
    ContainsAt(lowered, "already exists");
  }

  /** An illustration of AlreadyExistsAnywhere on one message: other
      failures are not mistaken for it. */
  lemma OtherFailureRaises()
    ensures !AlreadyExists("permission denied")
  {
    var denied := Lower("permission denied");
    ContainsAt(denied, "already exists");
    forall i | 0 <= i <= |denied| - 14 ensures !OccursAt(denied, "already exists", i) {
      assert denied[i] != 'a';
      assert denied[i..i + 14][0] == denied[i];
    }
  }

  /** The 14 characters of the text at position i read "already exists"
      once lower-cased. */
  predicate SaysAlreadyExistsAt(message: string, i: int) {
    0 <= i <= |message| - 14 && Lower(message[i..i + 14]) == "already exists"
  }

  /** The test in general: a failure is swallowed exactly when some piece
      of its text reads "already exists" in any letter case. */
  lemma AlreadyExistsAnywhere(message: string)
    ensures EnsureTable(Some(message)).None? <==> exists i :: SaysAlreadyExistsAt(message, i)
  {
    var lowered := Lower(message);
    ContainsAt(lowered, "already exists");
    forall i | 0 <= i <= |message| - 14
      ensures SaysAlreadyExistsAt(message, i) <==> OccursAt(lowered, "already exists", i)
    {
      LowerSlice(message, i, i + 14);
    }
    if AlreadyExists(message) {
      var i :| OccursAt(lowered, "already exists", i);
      assert SaysAlreadyExistsAt(message, i);
    }
  }

  /** Everything a sequence of insert requests sends, in order. */
  function Sent(calls: seq<InsertRequest>): seq<Record>
    decreases |calls|
  {
    if calls == [] then [] else Sent(calls[..|calls| - 1]) + calls[|calls| - 1].data
  }

  /** Sending one more request sends its rows after all earlier ones. */
  lemma SentAppend(calls: seq<InsertRequest>, q: InsertRequest)
    ensures Sent(calls + [q]) == Sent(calls) + q.data
  {
    assert (calls + [q])[..|calls|] == calls;
  }
}
