/**
 Stored rows and summaries of one session. Rows are listed newest first; the log
 itself is kept here in commit order.
 */
module Storage {
  import opened Text
  import opened Messages

  /** A row; `decoded` is None when the stored role or content cannot be read. */
  datatype StoredMessage = StoredMessage(id: string, decoded: Option<Message>, tokenEstimate: Option<int>)

  datatype StoredSummary = StoredSummary(id: string, text: string, coversThrough: string)

  function Reverse<T>(s: seq<T>): (r: seq<T>)
    ensures |r| == |s|
    ensures forall i :: 0 <= i < |s| ==> r[i] == s[|s| - 1 - i]
  {
    seq(|s|, i requires 0 <= i < |s| => s[|s| - 1 - i])
  }

  lemma {:induction false} ReverseTwice<T>(s: seq<T>)
    ensures Reverse(Reverse(s)) == s
  {
  }

  function RowIds(rows: seq<StoredMessage>): seq<string> {
    seq(|rows|, i requires 0 <= i < |rows| => rows[i].id)
  }

  /** First row with the given id. */
  function Position(rows: seq<StoredMessage>, id: string): (p: Option<nat>)
    ensures p.None? ==> forall i :: 0 <= i < |rows| ==> rows[i].id != id
    ensures p.Some? ==> p.value < |rows| && rows[p.value].id == id
                        && forall i :: 0 <= i < p.value ==> rows[i].id != id
  {
    if rows == [] then None
    else if rows[0].id == id then Some(0)
    else
      var rest := Position(rows[1..], id);
      if rest.None? then None else Some(rest.value + 1)
  }

  /** Of rows listed newest first, those newer than the summary's boundary; all when there is none. */
  function AfterBoundary(listed: seq<StoredMessage>, summary: Option<StoredSummary>): (r: seq<StoredMessage>)
    ensures r <= listed
    ensures summary.Some? ==>
              && (forall i :: 0 <= i < |r| ==> r[i].id != summary.value.coversThrough)
              && (|r| < |listed| ==> listed[|r|].id == summary.value.coversThrough)
    ensures summary.None? ==> r == listed
  {
    if summary.None? then listed
    else
      var boundary := Position(listed, summary.value.coversThrough);
      if boundary.None? then listed else listed[..boundary.value]
  }

  /** Every row decoded, or None when some row cannot be. */
  function DecodeAll(rows: seq<StoredMessage>): (ms: Option<seq<Message>>)
    ensures ms.Some? ==> |ms.value| == |rows|
    ensures ms.Some? ==> forall i :: 0 <= i < |rows| ==> rows[i].decoded == Some(ms.value[i])
    ensures ms.None? ==> exists i :: 0 <= i < |rows| && rows[i].decoded.None?
  {
    if rows == [] then Some([])
    else
      var rest := DecodeAll(rows[1..]);
      if rows[0].decoded.None? || rest.None? then None else Some([rows[0].decoded.value] + rest.value)
  }

  /** The boundary row splits the log: what is replayed is exactly what comes after it. */
  lemma {:induction false} ReplayedRows(log: seq<StoredMessage>, summary: StoredSummary, k: nat)
    requires Distinct(RowIds(log)) && k < |log| && log[k].id == summary.coversThrough
    ensures Reverse(AfterBoundary(Reverse(log), Some(summary))) == log[k + 1..]
  {
    var listed := Reverse(log);
    var b := |log| - 1 - k;
    assert listed[b] == log[k];
    forall i | 0 <= i < |log| && i != b ensures listed[i].id != summary.coversThrough {
      assert RowIds(log)[|log| - 1 - i] == listed[i].id;
      assert RowIds(log)[k] == summary.coversThrough;
    }
    assert Position(listed, summary.coversThrough) == Some(b);
  }
}
