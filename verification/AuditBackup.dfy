/** Backup and restore of the audit log (tools/backup_audit_log.py) over a map from path to the
    lines of the file there. */
module AuditBackup {
  import opened Options
  import opened AuditLog

  datatype Path = AccessLog | Backup(stamp: string) | PreRestore(stamp: string) | Elsewhere(name: string)

  type Files = map<Path, seq<Line>>

  datatype Exit = Code(value: nat) | SameFileError

  function Current(files: Files): seq<Line> {
    if AccessLog in files then files[AccessLog] else []
  }

  // ---- What one command does to the files ----

  predicate BackupRefused(d: Digest, files: Files, proceed: bool) {
    AccessLog !in files || (!Intact(d, Events(Current(files))) && !proceed)
  }

  // cmd_backup. `proceed` is --yes or a confirmed prompt, `landed` what the copy left on disk.
  function Backed(d: Digest, files: Files, stamp: string, proceed: bool, landed: seq<Line>): (Files, Exit) {
    var dest, events, copied := Path.Backup(stamp), Events(Current(files)), Events(landed);
    if BackupRefused(d, files, proceed) then (files, Code(1))
    else if |copied| != |events| then (files - {dest}, Code(1))
    else (files[dest := landed], Code(if Intact(d, copied) then 0 else 2))
  }

  // What the backup directory holds once the log about to be replaced has been set aside.
  function Preserved(files: Files, stamp: string): Files {
    if AccessLog in files then files[PreRestore(stamp) := files[AccessLog]] else files
  }

  predicate RestoreRefused(d: Digest, files: Files, src: Path, force: bool) {
    || src !in files
    || (!force && !Intact(d, Events(files[src])))
    || (!force && |Events(Current(files))| > |Events(files[src])|)
  }

  // cmd_restore
  function Restored(d: Digest, files: Files, src: Path, force: bool, stamp: string): (Files, Exit) {
    var kept := Preserved(files, stamp);
    if RestoreRefused(d, files, src, force) then (files, Code(1))
    else if src == AccessLog then (kept, SameFileError)
    else (kept[AccessLog := kept[src]], Code(if Intact(d, Events(kept[src])) then 0 else 1))
  }

  method ChainHolds(d: Digest, events: seq<Event>) returns (ok: bool)
    ensures ok <==> Intact(d, events)
  {
    var v := VerifyEventsChain(d, events);
    if v.BrokenAt? && Intact(d, events) {
      IntactPrefix(d, events, v.line);
    }
    ok := v.Ok?;
  }

  class Archive {
    const digest: Digest
    var files: Files

    constructor (digest: Digest)
      ensures this.digest == digest && files == map[]
    {
      this.digest := digest;
      files := map[];
    }

    method CmdBackup(stamp: string, yes: bool, confirmed: bool, landed: seq<Line>) returns (exit: Exit)
      modifies this`files
      ensures (files, exit) == Backed(digest, old(files), stamp, yes || confirmed, landed)
    {
      if AccessLog !in files {
        return Code(1);
      }
      var events := ReadEvents(files[AccessLog]);
      var ok := ChainHolds(digest, events);
      if !ok && !yes && !confirmed {
        return Code(1);
      }
      var dest := Path.Backup(stamp);
      files := files[dest := landed];
      var copied := ReadEvents(files[dest]);
      var copyOk := ChainHolds(digest, copied);
      if |copied| != |events| {
        files := files - {dest};
        assert files == old(files) - {dest};
        return Code(1);
      }
      return Code(if copyOk then 0 else 2);
    }

    method CmdRestore(src: Path, force: bool, stamp: string) returns (exit: Exit)
      modifies this`files
      ensures (files, exit) == Restored(digest, old(files), src, force, stamp)
    {
      if src !in files {
        return Code(1);
      }
      var backup := ReadEvents(files[src]);
      var ok := ChainHolds(digest, backup);
      if !ok && !force {
        return Code(1);
      }
      var current := ReadEvents(Current(files));
      if |current| > |backup| && !force {
        return Code(1);
      }
      if AccessLog in files {
        files := files[PreRestore(stamp) := files[AccessLog]];
      }
      if src == AccessLog {
        return SameFileError;
      }
      files := files[AccessLog := files[src]];
      var restored := ReadEvents(files[AccessLog]);
      var restoredOk := ChainHolds(digest, restored);
      return Code(if restoredOk then 0 else 1);
    }
  }

  // ---- Evidence ----

  ghost predicate Holds(files: Files, line: Line) {
    exists p :: p in files && line in files[p]
  }

  ghost predicate Keeps(before: Files, after: Files) {
    forall line | Holds(before, line) :: Holds(after, line)
  }

  // Every line of the file at `dest`, if there is one, is also in another file.
  ghost predicate Expendable(files: Files, dest: Path) {
    dest in files ==>
      forall line | line in files[dest] :: exists p :: p in files && p != dest && line in files[p]
  }

  // Copying the log over `dest`.
  lemma OverwriteKeeps(files: Files, dest: Path)
    requires AccessLog in files && dest != AccessLog
    ensures Keeps(files, files[dest := files[AccessLog]]) <==> Expendable(files, dest)
  {
    var after := files[dest := files[AccessLog]];
    if Expendable(files, dest) {
      forall line | Holds(files, line) ensures Holds(after, line) {
        var p :| p in files && line in files[p];
        if p == dest {
          var q :| q in files && q != dest && line in files[q];
          assert line in after[q];
        } else {
          assert line in after[p];
        }
      }
    } else {
      var line :| line in files[dest] && forall p :: p in files && p != dest ==> line !in files[p];
      assert Holds(files, line);
      assert forall p | p in after :: line !in after[p];
    }
  }

  // A faithful backup loses no line exactly when it is refused or the file it overwrites is
  // expendable.
  lemma BackupKeepsEvidence(d: Digest, files: Files, stamp: string, proceed: bool)
    ensures Keeps(files, Backed(d, files, stamp, proceed, Current(files)).0)
            <==> BackupRefused(d, files, proceed) || Expendable(files, Path.Backup(stamp))
  {
    if !BackupRefused(d, files, proceed) {
      OverwriteKeeps(files, Path.Backup(stamp));
    }
  }

  // Putting `src` in the log's place once the log has been set aside neither loses nor adds a line.
  lemma ReplaceKeeps(kept: Files, existed: bool, stamp: string, src: Path)
    requires src in kept && src != AccessLog
    requires if existed then AccessLog in kept && PreRestore(stamp) in kept && kept[PreRestore(stamp)] == kept[AccessLog]
             else AccessLog !in kept
    ensures forall line :: Holds(kept, line) <==> Holds(kept[AccessLog := kept[src]], line)
  {
    var after := kept[AccessLog := kept[src]];
    forall line | Holds(kept, line) ensures Holds(after, line) {
      var p :| p in kept && line in kept[p];
      var q := if p == AccessLog then PreRestore(stamp) else p;
      assert line in after[q];
    }
    forall line | Holds(after, line) ensures Holds(kept, line) {
      var p :| p in after && line in after[p];
      var q := if p == AccessLog then src else p;
      assert line in kept[q];
    }
  }

  // A restore loses no line exactly when it is refused, there is no log to set aside, or the file
  // it sets the log aside to is expendable.
  lemma RestoreKeepsEvidence(d: Digest, files: Files, src: Path, force: bool, stamp: string)
    ensures Keeps(files, Restored(d, files, src, force, stamp).0)
            <==> RestoreRefused(d, files, src, force) || AccessLog !in files || Expendable(files, PreRestore(stamp))
  {
    var kept := Preserved(files, stamp);
    if !RestoreRefused(d, files, src, force) {
      if AccessLog in files {
        OverwriteKeeps(files, PreRestore(stamp));
      }
      if src != AccessLog {
        ReplaceKeeps(kept, AccessLog in files, stamp, src);
      }
    }
  }

  // Two forced restores within the same second: the second overwrites what the first set aside.
  lemma SameSecondLosesEvidence(d: Digest, text: string, stamp: string, name: string)
    ensures var files: Files := map[AccessLog := [Garbled(text)], Elsewhere(name) := []];
            var once := Restored(d, files, Elsewhere(name), true, stamp).0;
            var twice := Restored(d, once, Elsewhere(name), true, stamp).0;
            Holds(files, Garbled(text)) && Holds(once, Garbled(text)) && !Holds(twice, Garbled(text))
  {
    var files: Files := map[AccessLog := [Garbled(text)], Elsewhere(name) := []];
    var once := Restored(d, files, Elsewhere(name), true, stamp).0;
    assert Garbled(text) in files[AccessLog];
    assert Garbled(text) in once[PreRestore(stamp)];
  }

  // ---- Runs ----

  datatype Step =
    | Append(fields: Event, timestamp: real, iso: string)
    | TakeBackup(stamp: string, proceed: bool, landed: seq<Line>)
    | Restore(src: Path, force: bool, stamp: string)

  function Apply(d: Digest, files: Files, step: Step): Files {
    match step
    case Append(fields, timestamp, iso) => files[AccessLog := Logged(d, Current(files), fields, timestamp, iso)]
    case TakeBackup(stamp, proceed, landed) => Backed(d, files, stamp, proceed, landed).0
    case Restore(src, force, stamp) => Restored(d, files, src, force, stamp).0
  }

  function Exec(d: Digest, files: Files, steps: seq<Step>): Files {
    if steps == [] then files
    else Apply(d, Exec(d, files, steps[..|steps| - 1]), steps[|steps| - 1])
  }

  function Destination(step: Step): Option<Path> {
    match step
    case Append(_, _, _) => None
    case TakeBackup(stamp, _, _) => Some(Path.Backup(stamp))
    case Restore(_, _, stamp) => Some(PreRestore(stamp))
  }

  // No two backups and no two restores share a stamp, and none hits a file of an earlier run.
  ghost predicate DistinctStamps(files: Files, steps: seq<Step>) {
    && (forall i | 0 <= i < |steps| && Destination(steps[i]).Some? :: Destination(steps[i]).value !in files)
    && (forall i, j | 0 <= i < j < |steps| && Destination(steps[i]).Some? :: Destination(steps[i]) != Destination(steps[j]))
  }

  // Every archived file stays as it is: only the log itself is ever replaced.
  ghost predicate ArchivesKept(before: Files, after: Files) {
    forall p | p in before && p != AccessLog :: p in after && after[p] == before[p]
  }

  lemma StepKeepsEvidence(d: Digest, files: Files, step: Step)
    requires Destination(step).Some? ==> Destination(step).value !in files
    ensures Keeps(files, Apply(d, files, step)) && ArchivesKept(files, Apply(d, files, step))
  {
    var after := Apply(d, files, step);
    match step {
      case Append(_, _, _) =>
        forall line | Holds(files, line) ensures Holds(after, line) {
          var p :| p in files && line in files[p];
          assert line in after[p];
        }
      case TakeBackup(_, _, _) =>
        forall line | Holds(files, line) ensures Holds(after, line) {
          var p :| p in files && line in files[p];
          assert line in after[p];
        }
      case Restore(src, force, stamp) =>
        RestoreKeepsEvidence(d, files, src, force, stamp);
    }
  }

  lemma {:induction false} FilesHaveAnOrigin(d: Digest, files: Files, steps: seq<Step>, p: Path)
    requires p in Exec(d, files, steps) && p !in files && p != AccessLog
    ensures exists i :: 0 <= i < |steps| && Destination(steps[i]) == Some(p)
  {
    if steps != [] {
      var n := |steps| - 1;
      if p in Exec(d, files, steps[..n]) {
        FilesHaveAnOrigin(d, files, steps[..n], p);
        var i :| 0 <= i < n && Destination(steps[..n][i]) == Some(p);
        assert Destination(steps[i]) == Some(p);
      } else {
        assert Destination(steps[n]) == Some(p);
      }
    }
  }

  // Over any run with distinct stamps, forced restores included, no line that was ever in some
  // file is lost, and no archived file ever changes.
  lemma {:induction false} EvidenceIsConserved(d: Digest, files: Files, steps: seq<Step>, i: nat)
    requires DistinctStamps(files, steps) && i <= |steps|
    ensures Keeps(Exec(d, files, steps[..i]), Exec(d, files, steps))
    ensures ArchivesKept(Exec(d, files, steps[..i]), Exec(d, files, steps))
  {
    var n := |steps| - 1;
    if i == |steps| {
      assert steps[..i] == steps;
    } else {
      assert steps[..n][..i] == steps[..i];
      EvidenceIsConserved(d, files, steps[..n], i);
      var before, dest := Exec(d, files, steps[..n]), Destination(steps[n]);
      if dest.Some? && dest.value in before {
        FilesHaveAnOrigin(d, files, steps[..n], dest.value);
      }
      StepKeepsEvidence(d, before, steps[n]);
    }
  }

  // Every line log_event ever wrote is still in the log or in some archived file.
  lemma LoggedLinesSurvive(d: Digest, files: Files, steps: seq<Step>, i: nat)
    requires DistinctStamps(files, steps) && i < |steps| && steps[i].Append?
    ensures var log := Current(Exec(d, files, steps[..i]));
            Holds(Exec(d, files, steps),
                  Entry(Sealed(d, LastHash(log), Stamped(steps[i].fields, steps[i].timestamp, steps[i].iso))))
  {
    var log := Current(Exec(d, files, steps[..i]));
    var line := Entry(Sealed(d, LastHash(log), Stamped(steps[i].fields, steps[i].timestamp, steps[i].iso)));
    var after := Exec(d, files, steps[..i + 1]);
    assert steps[..i + 1][..i] == steps[..i];
    assert after[AccessLog][|log|] == line;
    assert Holds(after, line);
    EvidenceIsConserved(d, files, steps, i + 1);
  }

  // A backup that was kept can be brought back whole after any later run: a forced restore of it
  // leaves exactly the log it was taken of.
  lemma BackupIsRecoverable(d: Digest, files: Files, steps: seq<Step>, i: nat, stamp: string)
    requires DistinctStamps(files, steps) && i < |steps| && steps[i].TakeBackup?
    requires var log := Current(Exec(d, files, steps[..i]));
             && steps[i].landed == log
             && Backed(d, Exec(d, files, steps[..i]), steps[i].stamp, steps[i].proceed, log).1 != Code(1)
    ensures var after := Restored(d, Exec(d, files, steps), Path.Backup(steps[i].stamp), true, stamp).0;
            Current(after) == Current(Exec(d, files, steps[..i]))
  {
    assert steps[..i + 1][..i] == steps[..i];
    var taken := Exec(d, files, steps[..i + 1]);
    assert Path.Backup(steps[i].stamp) in taken;
    EvidenceIsConserved(d, files, steps, i + 1);
  }

  // ---- What the exit codes vouch for ----

  // A backup touches no file but its destination. It leaves all files alone, with exit code 1, when
  // there is no log or the log is broken and the operator does not proceed; a broken log is backed up
  // when the operator does. Otherwise a copy that holds another number of events is removed, with
  // exit code 1, and any other copy is kept, with exit code 0 if it is intact and 2 if it is not.
  lemma BackupExits(d: Digest, files: Files, stamp: string, proceed: bool, landed: seq<Line>)
    ensures var (after, exit) := Backed(d, files, stamp, proceed, landed);
            var log := if AccessLog in files then files[AccessLog] else [];
            var copied := AccessLog in files && (Intact(d, Events(log)) || proceed);
            var complete := |Events(landed)| == |Events(log)|;
            && (forall p | p != Path.Backup(stamp) :: (p in after <==> p in files) && (p in files ==> after[p] == files[p]))
            && (!copied ==> after == files && exit == Code(1))
            && (copied ==>
                  && (exit == Code(1) <==> !complete)
                  && (exit == Code(0) <==> complete && Intact(d, Events(landed)))
                  && (exit == Code(2) <==> complete && !Intact(d, Events(landed)))
                  && (Path.Backup(stamp) in after <==> complete)
                  && (complete ==> after[Path.Backup(stamp)] == landed))
  {
  }

  // A restore leaves all files alone, with exit code 1, exactly when the backup is missing or, without
  // --force, broken or shorter than the log. Otherwise it sets the log aside, if there is one, and
  // touches no other file but the log; the log cannot be restored from itself.
  lemma RestoreExits(d: Digest, files: Files, src: Path, force: bool, stamp: string)
    ensures var (after, exit) := Restored(d, files, src, force, stamp);
            var log := if AccessLog in files then files[AccessLog] else [];
            var refused := src !in files
                           || (!force && (!Intact(d, Events(files[src])) || |Events(files[src])| < |Events(log)|));
            && (refused ==> after == files && exit == Code(1))
            && (!refused ==>
                  && (forall p | p != AccessLog && p != PreRestore(stamp) ::
                        (p in after <==> p in files) && (p in files ==> after[p] == files[p]))
                  && (AccessLog in files ==> PreRestore(stamp) in after && after[PreRestore(stamp)] == log)
                  && (src == AccessLog <==> exit == SameFileError)
                  && AccessLog in after
                  && (src == AccessLog ==> after[AccessLog] == log)
                  && (src != AccessLog && src != PreRestore(stamp) ==> after[AccessLog] == files[src])
                  && (src != AccessLog ==> exit == Code(if Intact(d, Events(after[AccessLog])) then 0 else 1)))
  {
  }

  // A restore that succeeds without --force leaves an intact chain no shorter than the one it replaced.
  lemma UnforcedRestoreIsSafe(d: Digest, files: Files, src: Path, stamp: string)
    requires Restored(d, files, src, false, stamp).1 == Code(0)
    ensures var after := Restored(d, files, src, false, stamp).0;
            && Intact(d, Events(Current(after)))
            && |Events(Current(after))| >= |Events(Current(files))|
  {
    if src == PreRestore(stamp) && AccessLog in files {
      assert Current(Restored(d, files, src, false, stamp).0) == Current(files);
    }
  }

  // A restore that got through put the backup's lines in the log, unless the backup was itself
  // overwritten because it is the file this very restore set the log aside to. Its exit code tells
  // only whether the log it leaves is intact.
  lemma RestoreBringsBack(d: Digest, files: Files, src: Path, force: bool, stamp: string)
    requires !RestoreRefused(d, files, src, force) && src != AccessLog
    ensures var after := Restored(d, files, src, force, stamp).0;
            Current(after) == files[src] <==>
              src != PreRestore(stamp) || AccessLog !in files || files[src] == files[AccessLog]
    ensures var (after, exit) := Restored(d, files, src, force, stamp);
            exit == Code(0) <==> Intact(d, Events(Current(after)))
  {
    var kept := Preserved(files, stamp);
    assert Restored(d, files, src, force, stamp).0 == kept[AccessLog := kept[src]];
  }

  // Exit code 0 with the same head hash as the log means the copy holds exactly the log's events,
  // whatever the copying did to the bytes.
  lemma VerifiedBackupIsExact(d: Digest, files: Files, stamp: string, proceed: bool, landed: seq<Line>)
    requires WellFormed(d) && Intact(d, Events(Current(files)))
    requires Backed(d, files, stamp, proceed, landed).1 == Code(0)
    requires Head(Events(landed)) == Head(Events(Current(files)))
    requires NoCollision(d, Payloads(d, Events(landed)) + Payloads(d, Events(Current(files))))
    ensures Events(landed) == Events(Current(files))
  {
    TamperEvidence(d, Events(landed), Events(Current(files)));
  }
}
