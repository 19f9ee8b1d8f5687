/**
 * Properties of the status workflow as the coordinator runs it: every
 * transition overwrites all workflow columns whatever the current status,
 * and the history query orders the rows a Submit and a Verify append.
 */
module Workflow {
  import opened Wrappers
  import opened Models
  import opened HistoryLedger
  import opened Service
  import Ordering

  /**
   * A transition's result depends only on the row's identity, never on its
   * current status or workflow columns: nothing guards the transitions.
   */
  lemma TransitionIgnoresCurrentState(r1: AchievementReference, r2: AchievementReference, user: string, note: string, now: Time)
    requires SameIdentity(r1, r2)
    ensures SubmitEffect(r1, now) == SubmitEffect(r2, now)
    ensures VerifyEffect(r1, user, now) == VerifyEffect(r2, user, now)
    ensures RejectEffect(r1, user, note, now) == RejectEffect(r2, user, note, now)
  {
  }

  /** Create, Submit, Verify: verified by the actor, and the submission time is gone. */
  lemma CreateSubmitVerify(studentId: string, docId: string, refId: string, t0: Time, t1: Time, t2: Time, verifier: string)
    ensures var draft := AchievementReference(refId, studentId, docId, Draft, None, None, None, None, t0, None);
            var v := VerifyEffect(SubmitEffect(draft, t1), verifier, t2);
            v.status == Verified && v.verifiedBy == Some(verifier) && v.verifiedAt == Some(t2) &&
            v.submittedAt.None? && v.rejectionNote.None? && v.studentId == studentId && v.createdAt == t0
  {
  }

  /** Create, Reject: the note and the rejecter are stored, nothing is verified. */
  lemma CreateReject(studentId: string, docId: string, refId: string, t0: Time, t1: Time, rejecter: string, note: string)
    ensures var draft := AchievementReference(refId, studentId, docId, Draft, None, None, None, None, t0, None);
            var j := RejectEffect(draft, rejecter, note, t1);
            j.status == Rejected && j.rejectionNote == Some(note) && j.verifiedAt.None? && j.verifiedBy == Some(rejecter)
  {
  }

  /**
   * After a Submit and then a Verify whose history inserts both succeeded,
   * on a reference with no earlier ledger rows and with the Verify later in
   * time, the history query returns exactly the two rows, newest first.
   */
  lemma HistoryAfterSubmitVerify(ledger: seq<HistoryEntry>, id: string, user: Option<string>, verifier: string,
                                 submitRow: HistoryEntry, verifyRow: HistoryEntry, l: seq<HistoryEntry>)
    requires forall e :: e in ledger ==> e.achievementRefId != id
    requires submitRow == HistoryEntry(submitRow.id, id, Draft, Submitted, user, None, submitRow.changedAt)
    requires verifyRow == HistoryEntry(verifyRow.id, id, Submitted, Verified, Some(verifier), None, verifyRow.changedAt)
    requires submitRow.changedAt < verifyRow.changedAt
    requires Ordering.NewestFirst(l, ChangedAt)
    requires multiset(l) == multiset(ForAchievement(ledger + [submitRow] + [verifyRow], id))
    ensures l == [verifyRow, submitRow]
  {
    assert ForAchievement(ledger + [submitRow] + [verifyRow], id) == [submitRow, verifyRow] by {
      NoRowsForAchievement(ledger, id);
      AppendForAchievement(ledger, submitRow, id);
      AppendForAchievement(ledger + [submitRow], verifyRow, id);
    }
    TwoNewestFirst(l, submitRow, verifyRow);
  }

  /** A ledger without rows for `id` contributes none. */
  lemma NoRowsForAchievement(ledger: seq<HistoryEntry>, id: string)
    requires forall e :: e in ledger ==> e.achievementRefId != id
    ensures ForAchievement(ledger, id) == []
  {
  }

  /** Appending one ledger row adds it to its achievement's rows, at the end. */
  lemma AppendForAchievement(ledger: seq<HistoryEntry>, e: HistoryEntry, id: string)
    ensures ForAchievement(ledger + [e], id) == ForAchievement(ledger, id) + (if e.achievementRefId == id then [e] else [])
  {
    assert (ledger + [e])[..|ledger + [e]| - 1] == ledger;
  }

  /** Two rows with distinct times, listed newest first, come in one order only. */
  lemma TwoNewestFirst(l: seq<HistoryEntry>, older: HistoryEntry, newer: HistoryEntry)
    requires older.changedAt < newer.changedAt
    requires Ordering.NewestFirst(l, ChangedAt)
    requires multiset(l) == multiset([older, newer])
    ensures l == [newer, older]
  {
    assert |l| == 2 by {
      assert |multiset(l)| == |multiset([older, newer])|;
    }
    assert l == [l[0], l[1]];
    assert multiset{l[0], l[1]} == multiset{older, newer};
    assert ChangedAt(l[0]) >= ChangedAt(l[1]);
  }
}
