/**
 * The append-only `achievement_reference_history` ledger and the utility
 * that records one status change in it.
 */
module HistoryLedger {
  import opened Wrappers
  import opened Models
  import Ordering

  /** The ORDER BY key of the history query. */
  function ChangedAt(e: HistoryEntry): Time {
    e.changedAt
  }

  /** The ledger rows of one achievement, in ledger order. */
  function ForAchievement(entries: seq<HistoryEntry>, refId: string): (r: seq<HistoryEntry>)
    ensures forall e :: e in r <==> e in entries && e.achievementRefId == refId
  {
    if entries == [] then []
    else
      var last := entries[|entries| - 1];
      assert entries == entries[..|entries| - 1] + [last];
      ForAchievement(entries[..|entries| - 1], refId) + (if last.achievementRefId == refId then [last] else [])
  }

  class Ledger {
    var entries: seq<HistoryEntry>

    constructor ()
      ensures entries == []
    {
      entries := [];
    }

    /** One INSERT: appends `e`, or changes nothing and reports the failure. */
    method Insert(e: HistoryEntry, fault: Option<string>) returns (err: Option<string>)
      modifies this
      ensures err == fault
      ensures entries == old(entries) + (if fault.None? then [e] else [])
    {
      err := fault;
      if fault.None? {
        entries := entries + [e];
      }
    }

    /** SELECT of one achievement's rows, ORDER BY changed_at DESC. */
    method ByAchievement(refId: string, fault: Option<string>) returns (r: Result<seq<HistoryEntry>, string>)
      ensures fault.Some? ==> r == Failure(fault.value)
      ensures fault.None? ==> r.Success?
      ensures r.Success? ==> Ordering.NewestFirst(r.value, ChangedAt)
      ensures r.Success? ==> multiset(r.value) == multiset(ForAchievement(entries, refId))
    {
      if fault.Some? {
        return Failure(fault.value);
      }
      var res: seq<HistoryEntry> := [];
      var i := 0;
      while i < |entries|
        invariant 0 <= i <= |entries|
        invariant Ordering.NewestFirst(res, ChangedAt)
        invariant multiset(res) == multiset(ForAchievement(entries[..i], refId))
      {
        var e := entries[i];
        assert entries[..i + 1][..i] == entries[..i];
        if e.achievementRefId == refId {
          Ordering.InsertKeepsNewestFirst(res, e, ChangedAt);
          res := Ordering.InsertNewestFirst(res, e, ChangedAt);
        }
        i := i + 1;
      }
      assert entries[..i] == entries;
      r := Success(res);
    }
  }

  /** The `changed_by` column: the actor when it is a non-empty string, else NULL. */
  function NormalizeChangedBy(changedBy: Option<string>): (r: Option<string>)
    ensures r.Some? <==> changedBy.Some? && changedBy.value != ""
    ensures r.Some? ==> r == changedBy
  {
    if changedBy.Some? && changedBy.value != "" then changedBy else None
  }

  /** The error reported for a failed ledger insert. */
  function WrapHistoryError(message: string): (r: string)
    ensures |r| == |"history insert: "| + |message|
    ensures r[..16] == "history insert: " && r[16..] == message
  {
    "history insert: " + message
  }

  /**
   * Records one status change with a NULL note; a failure is returned,
   * wrapped, to the caller.
   */
  method InsertAchievementHistory(ledger: Ledger, achievementId: string, oldStatus: string, newStatus: string,
                                  changedBy: Option<string>, newId: string, now: Time, fault: Option<string>)
    returns (err: Option<string>)
    modifies ledger
    ensures err == (if fault.Some? then Some(WrapHistoryError(fault.value)) else None)
    ensures ledger.entries == old(ledger.entries) +
      (if fault.None? then [HistoryEntry(newId, achievementId, oldStatus, newStatus, NormalizeChangedBy(changedBy), None, now)] else [])
  {
    var insertErr := ledger.Insert(
      HistoryEntry(newId, achievementId, oldStatus, newStatus, NormalizeChangedBy(changedBy), None, now), fault);
    err := if insertErr.Some? then Some(WrapHistoryError(insertErr.value)) else None;
  }
}
