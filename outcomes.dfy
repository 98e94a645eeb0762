/** The outcome store: an append-only log of update attempts, and the query for the headlines
    already used for a creative. */
module Outcomes {
  import opened Wrappers

  /** The result tag of an attempt. */
  datatype Status = Success | Failed

  /** One row of the updates table (the timestamp column is not modelled). */
  datatype Record = Record(creativeId: string, oldHeadline: string, newHeadline: string, status: Status, error: Option<string>)

  /** `SELECT new_headline FROM updates WHERE creative_id = ?`, in row order, whatever the status. */
  function UsedHeadlines(log: seq<Record>, creativeId: string): (r: seq<string>)
    ensures |r| <= |log|
    ensures forall h :: h in r <==> exists i :: 0 <= i < |log| && log[i].creativeId == creativeId && log[i].newHeadline == h
    decreases |log|
  {
    if log == [] then []
    else
      var init, last := log[..|log| - 1], log[|log| - 1];
      assert log == init + [last];
      var earlier := UsedHeadlines(init, creativeId);
      if last.creativeId == creativeId then earlier + [last.newHeadline] else earlier
  }

  /** Appending a record adds its headline to the used headlines of its own creative and of no other. */
  lemma {:induction false} UsedAfterAppend(log: seq<Record>, r: Record, creativeId: string)
    ensures UsedHeadlines(log + [r], creativeId)
            == UsedHeadlines(log, creativeId) + (if r.creativeId == creativeId then [r.newHeadline] else [])
  {
    assert (log + [r])[..|log + [r]| - 1] == log;
  }

  /** The updates table. */
  class Ledger {
    var records: seq<Record>

    /** A freshly initialised, empty table. */
    constructor ()
      ensures records == []
    {
      records := [];
    }

    /** The headlines already used for `creativeId`. */
    function Used(creativeId: string): seq<string>
      reads this
    {
      UsedHeadlines(records, creativeId)
    }

    /** `log_update`: one row is added at the end; earlier rows are untouched. */
    method Append(r: Record)
      modifies this
      ensures records == old(records) + [r]
      ensures |records| == |old(records)| + 1 && records[..|old(records)|] == old(records)
    {
      records := records + [r];
    }
  }
}
