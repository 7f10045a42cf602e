/**
 * Diagnostics and recovery for study sessions (src/utils/sessionPersistenceValidator.ts): a
 * report on the session database and its `localStorage` backup, a replay of the backup into
 * the database, and a count of the sessions a cleanup would remove. The session database of
 * src/db/db.ts is not part of this model: its loaded contents, the outcome of each save and
 * `JSON.parse` are parameters.
 */
module SessionPersistence {
  import opened Wrappers
  import Browser

  const BackupKey := "backup_study_sessions"
  const LastSyncKey := "last_session_sync"

  /** A study session; a missing or empty start time is `None`. */
  datatype StudySession = StudySession(
    id: string,
    startTime: Option<string>,
    subject: string,
    duration: int,
    completed: bool)

  /** `session.id && session.startTime`. */
  predicate HasRequiredFields(s: StudySession)
  {
    s.id != "" && s.startTime.Some?
  }

  /** The text of a `localStorage` item, when it is truthy (present and non-empty). */
  function TruthyItem(storage: Browser.LocalStorage, key: string): (r: Option<string>)
    reads storage
    ensures r.Some? <==> key in storage.items && storage.items[key] != ""
    ensures r.Some? ==> r.value == storage.items[key]
  {
    var item := storage.GetItem(key);
    if item.Some? && item.value != "" then item else None
  }

  datatype PersistenceReport = PersistenceReport(
    totalSessions: nat,
    backupSessions: nat,
    corruptedSessions: nat,
    lastSyncTime: Option<string>)

  const EmptyReport := PersistenceReport(0, 0, 0, None)

  /** The number of sessions lacking an id or a start time. */
  function CountCorrupted(sessions: seq<StudySession>): (n: nat)
    ensures n <= |sessions|
    ensures n == 0 <==> forall i :: 0 <= i < |sessions| ==> HasRequiredFields(sessions[i])
  {
    if sessions == [] then 0
    else
      var front := sessions[..|sessions| - 1];
      assert forall i :: 0 <= i < |front| ==> front[i] == sessions[i];
      CountCorrupted(front) + (if HasRequiredFields(sessions[|sessions| - 1]) then 0 else 1)
  }

  /** The `forEach` that counts corrupted sessions. */
  method CorruptedCount(sessions: seq<StudySession>) returns (count: nat)
    ensures count == CountCorrupted(sessions)
  {
    count := 0;
    var i := 0;
    while i < |sessions|
      invariant 0 <= i <= |sessions|
      invariant count == CountCorrupted(sessions[..i])
    {
      assert sessions[..i + 1][..i] == sessions[..i];
      if !HasRequiredFields(sessions[i]) {
        count := count + 1;
      }
      i := i + 1;
    }
    assert sessions[..i] == sessions;
  }

  /**
   * `validateSessionPersistence()`: `dbSessions` is `None` when loading throws, `parse` is
   * `JSON.parse` (`None` when it throws); either failure yields the all-zero report.
   */
  method ValidateSessionPersistence(dbSessions: Option<seq<StudySession>>, storage: Browser.LocalStorage,
                                    parse: string -> Option<seq<StudySession>>)
    returns (report: PersistenceReport)
    ensures var backup := TruthyItem(storage, BackupKey);
      if dbSessions.None? || (backup.Some? && parse(backup.value).None?) then report == EmptyReport
      else
        && report.totalSessions == |dbSessions.value|
        && report.backupSessions == (if backup.Some? then |parse(backup.value).value| else 0)
        && report.corruptedSessions == CountCorrupted(dbSessions.value)
        && report.lastSyncTime == storage.GetItem(LastSyncKey)
  {
    if dbSessions.None? {
      return EmptyReport;
    }
    var backupData := TruthyItem(storage, BackupKey);
    var backupSessions: seq<StudySession> := [];
    if backupData.Some? {
      var parsed := parse(backupData.value);
      if parsed.None? {
        return EmptyReport;
      }
      backupSessions := parsed.value;
    }
    var corrupted := CorruptedCount(dbSessions.value);
    var lastSync := storage.GetItem(LastSyncKey);
    report := PersistenceReport(|dbSessions.value|, |backupSessions|, corrupted, lastSync);
  }

  /** The backup sessions a replay saves: complete ones whose save (by position) does not throw. */
  function Synced(sessions: seq<StudySession>, saveFails: nat -> bool): (r: seq<StudySession>)
    ensures |r| <= |sessions|
    ensures forall x :: x in r ==> x in sessions && HasRequiredFields(x)
  {
    if sessions == [] then []
    else
      var i := |sessions| - 1;
      var front := Synced(sessions[..i], saveFails);
      if HasRequiredFields(sessions[i]) && !saveFails(i) then front + [sessions[i]] else front
  }

  /** Every complete backup session whose save succeeds is saved. */
  lemma {:induction false} SyncedComplete(sessions: seq<StudySession>, saveFails: nat -> bool, i: nat)
    requires i < |sessions| && HasRequiredFields(sessions[i]) && !saveFails(i)
    ensures sessions[i] in Synced(sessions, saveFails)
  {
    var last := |sessions| - 1;
    if i < last {
      assert sessions[..last][i] == sessions[i];
      SyncedComplete(sessions[..last], saveFails, i);
    }
  }

  /**
   * `forceSyncBackupSessions()`: with no backup it succeeds at once; otherwise every complete
   * session is saved in turn, a failing save being skipped, and only when at least one save
   * succeeded is the backup removed and the sync time recorded. It fails (returns false)
   * only when the backup cannot be parsed. `saved` lists the successful saves in order.
   */
  method ForceSyncBackupSessions(storage: Browser.LocalStorage, parse: string -> Option<seq<StudySession>>,
                                 saveFails: nat -> bool, now: string)
    returns (ok: bool, saved: seq<StudySession>)
    modifies storage
    ensures var backup := old(TruthyItem(storage, BackupKey));
      if backup.None? then ok && saved == [] && storage.items == old(storage.items)
      else if parse(backup.value).None? then !ok && saved == [] && storage.items == old(storage.items)
      else
        && ok
        && saved == Synced(parse(backup.value).value, saveFails)
        && storage.items == (if saved != [] then (old(storage.items) - {BackupKey})[LastSyncKey := now]
                             else old(storage.items))
  {
    saved := [];
    var backupData := TruthyItem(storage, BackupKey);
    if backupData.None? {
      return true, [];
    }
    var parsed := parse(backupData.value);
    if parsed.None? {
      return false, [];
    }
    var sessions := parsed.value;
    var successCount := 0;
    var i := 0;
    while i < |sessions|
      invariant 0 <= i <= |sessions|
      invariant saved == Synced(sessions[..i], saveFails)
      invariant successCount == |saved|
    {
      assert sessions[..i + 1][..i] == sessions[..i];
      if HasRequiredFields(sessions[i]) {
        if !saveFails(i) {
          saved := saved + [sessions[i]];
          successCount := successCount + 1;
        }
      }
      i := i + 1;
    }
    assert sessions[..i] == sessions;
    if successCount > 0 {
      storage.RemoveItem(BackupKey);
      storage.SetItem(LastSyncKey, now);
    }
    return true, saved;
  }

  /** The ids of the complete sessions. */
  function CompleteIds(sessions: seq<StudySession>): (ids: set<string>)
    ensures forall x :: x in ids <==> exists i :: 0 <= i < |sessions| && HasRequiredFields(sessions[i]) && sessions[i].id == x
  {
    set i | 0 <= i < |sessions| && HasRequiredFields(sessions[i]) :: sessions[i].id
  }

  /**
   * The sessions a cleanup would remove: incomplete ones, and complete ones whose id an
   * earlier complete session already has.
   */
  function CountRemoved(sessions: seq<StudySession>): (n: nat)
    ensures n <= |sessions|
  {
    if sessions == [] then 0
    else
      var front := sessions[..|sessions| - 1];
      var last := sessions[|sessions| - 1];
      CountRemoved(front) + (if !HasRequiredFields(last) || last.id in CompleteIds(front) then 1 else 0)
  }

  /** The sessions a cleanup keeps are exactly one per distinct complete id. */
  lemma {:induction false} KeptOnePerId(sessions: seq<StudySession>)
    ensures |sessions| - CountRemoved(sessions) == |CompleteIds(sessions)|
  {
    if sessions != [] {
      var front := sessions[..|sessions| - 1];
      var last := sessions[|sessions| - 1];
      KeptOnePerId(front);
      CompleteIdsStep(sessions);
      if HasRequiredFields(last) && last.id !in CompleteIds(front) {
        assert |CompleteIds(front) + {last.id}| == |CompleteIds(front)| + 1;
      } else if HasRequiredFields(last) {
        assert CompleteIds(front) + {last.id} == CompleteIds(front);
      }
    }
  }

  /** The complete ids of a list: those before its last session, and the last one's if complete. */
  lemma CompleteIdsStep(sessions: seq<StudySession>)
    requires sessions != []
    ensures var front := sessions[..|sessions| - 1];
      var last := sessions[|sessions| - 1];
      CompleteIds(sessions) == CompleteIds(front) + (if HasRequiredFields(last) then {last.id} else {})
  {
    var front := sessions[..|sessions| - 1];
    assert forall i :: 0 <= i < |front| ==> front[i] == sessions[i];
  }

  /** Every corrupted session is among those a cleanup would remove. */
  lemma {:induction false} CorruptedAreRemoved(sessions: seq<StudySession>)
    ensures CountCorrupted(sessions) <= CountRemoved(sessions)
  {
    if sessions != [] {
      CorruptedAreRemoved(sessions[..|sessions| - 1]);
    }
  }

  /**
   * `cleanupSessions()`: counts, in one pass with a set of seen ids, the sessions a cleanup
   * would remove; it deletes nothing. `loaded` is `None` when loading throws, giving 0.
   */
  method CleanupSessions(loaded: Option<seq<StudySession>>) returns (removed: nat)
    ensures loaded.None? ==> removed == 0
    ensures loaded.Some? ==> removed == CountRemoved(loaded.value)
  {
    if loaded.None? {
      return 0;
    }
    var sessions := loaded.value;
    var seenIds: set<string> := {};
    removed := 0;
    var i := 0;
    while i < |sessions|
      invariant 0 <= i <= |sessions|
      invariant seenIds == CompleteIds(sessions[..i])
      invariant removed == CountRemoved(sessions[..i])
    {
      var prefix := sessions[..i + 1];
      assert prefix[..i] == sessions[..i];
      CompleteIdsStep(prefix);
      if !HasRequiredFields(sessions[i]) || sessions[i].id in seenIds {
        removed := removed + 1;
      } else {
        seenIds := seenIds + {sessions[i].id};
      }
      i := i + 1;
    }
    assert sessions[..i] == sessions;
  }
}
