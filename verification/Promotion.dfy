// All-or-nothing promotion of a refreshed file set, with rollback.

module Promotion {
  type Path = string
  type Content = string
  type Files = map<Path, Content>

  const SUFFIX := ".refresh.bak"

  function Backup(target: Path): Path {
    target + SUFFIX
  }

  /** A staged source and the target it replaces. */
  type Staged = seq<(Path, Path)>

  /** Sources, targets and backups of the whole list are pairwise different paths. */
  ghost predicate Separate(staged: Staged) {
    && (forall i, j :: 0 <= i < j < |staged| ==> staged[i].0 != staged[j].0 && staged[i].1 != staged[j].1)
    && (forall i, j :: 0 <= i < |staged| && 0 <= j < |staged| ==>
          && staged[i].0 != staged[j].1
          && staged[i].0 != Backup(staged[j].1)
          && staged[i].1 != Backup(staged[j].1))
  }

  lemma BackupInjective(p: Path, q: Path)
    ensures Backup(p) == Backup(q) ==> p == q
  {
    if Backup(p) == Backup(q) {
      assert |p| == |q|;
      assert p == Backup(p)[..|p|];
      assert q == Backup(q)[..|q|];
    }
  }

  // ------------------------------------------------------------- entry by entry

  /** How far one entry has come. */
  datatype Status = Untouched | SetAside | Promoted | Finished | Removed | Restored

  ghost predicate Same(f0: Files, f: Files, p: Path) {
    (p in f <==> p in f0) && (p in f0 ==> f[p] == f0[p])
  }

  /** The original content of the target, if there was any, is at its backup path. */
  ghost predicate Kept(f0: Files, f: Files, target: Path) {
    && Backup(target) !in f0
    && (Backup(target) in f <==> target in f0)
    && (target in f0 ==> f[Backup(target)] == f0[target])
  }

  ghost predicate EntryIs(f0: Files, f: Files, entry: (Path, Path), status: Status) {
    var (source, target) := entry;
    match status
    case Untouched => Same(f0, f, source) && Same(f0, f, target) && Same(f0, f, Backup(target))
    case SetAside => Same(f0, f, source) && target !in f && Kept(f0, f, target)
    case Promoted => source !in f && source in f0 && target in f && f[target] == f0[source] && Kept(f0, f, target)
    case Finished =>
      && source !in f && source in f0 && target in f && f[target] == f0[source]
      && Backup(target) !in f && Backup(target) !in f0
    case Removed => source !in f && target !in f && Kept(f0, f, target)
    case Restored => source !in f && Same(f0, f, target) && Backup(target) !in f && Backup(target) !in f0
  }

  ghost predicate Touched(staged: Staged, p: Path) {
    exists i :: 0 <= i < |staged| && (p == staged[i].0 || p == staged[i].1 || p == Backup(staged[i].1))
  }

  /** Every entry is as its status says and no other path has changed. */
  ghost predicate StateIs(f0: Files, f: Files, staged: Staged, st: seq<Status>) {
    && |st| == |staged|
    && (forall i :: 0 <= i < |staged| ==> EntryIs(f0, f, staged[i], st[i]))
    && (forall p :: !Touched(staged, p) ==> Same(f0, f, p))
  }

  /** A step that changes only paths of entry k moves only that entry's status. */
  lemma EntryStep(f0: Files, f: Files, f': Files, staged: Staged, st: seq<Status>, k: nat, status: Status)
    requires Separate(staged) && StateIs(f0, f, staged, st) && k < |staged|
    requires EntryIs(f0, f', staged[k], status)
    requires forall p :: p != staged[k].0 && p != staged[k].1 && p != Backup(staged[k].1) ==> Same(f, f', p)
    ensures StateIs(f0, f', staged, st[k := status])
  {
    forall i | 0 <= i < |staged| && i != k
      ensures EntryIs(f0, f', staged[i], st[i])
    {
      BackupInjective(staged[i].1, staged[k].1);
      assert Same(f, f', staged[i].0) && Same(f, f', staged[i].1) && Same(f, f', Backup(staged[i].1));
    }
    forall p | !Touched(staged, p)
      ensures Same(f0, f', p)
    {
      assert Same(f, f', p);
    }
  }

  // ---------------------------------------------------------------- guarantees

  /** The original of every target is at the target or at its backup. */
  ghost predicate Recoverable(f0: Files, f: Files, staged: Staged) {
    forall i :: 0 <= i < |staged| && staged[i].1 in f0 ==>
      var t := staged[i].1;
      (t in f && f[t] == f0[t]) || (Backup(t) in f && f[Backup(t)] == f0[t])
  }

  ghost predicate AllPromoted(f0: Files, f: Files, staged: Staged) {
    forall i :: 0 <= i < |staged| ==>
      staged[i].0 in f0 && staged[i].1 in f && f[staged[i].1] == f0[staged[i].0]
  }

  lemma StatesAreRecoverable(f0: Files, f: Files, staged: Staged, st: seq<Status>)
    requires StateIs(f0, f, staged, st) && forall i :: 0 <= i < |st| ==> st[i] != Finished
    ensures Recoverable(f0, f, staged)
  {
    forall i | 0 <= i < |staged| && staged[i].1 in f0
      ensures var t := staged[i].1;
        (t in f && f[t] == f0[t]) || (Backup(t) in f && f[Backup(t)] == f0[t])
    {
      assert EntryIs(f0, f, staged[i], st[i]);
    }
  }

  /** The steps of the forward loop, and the final clean-up, that may raise. */
  datatype Step = MakeParent | MoveToBackup | MoveToTarget | DropBackup

  datatype Outcome = Complete | RolledBack | CleanUpFailed

  class FileSystem {
    var files: Files

    /** Every state the files have gone through. */
    ghost var trace: seq<Files>

    constructor (files: Files)
      ensures this.files == files && trace == []
    {
      this.files := files;
      trace := [];
    }

    /** `os.replace`: raises with no effect, or moves the source over the target. */
    method Replace(source: Path, target: Path, raises: bool) returns (ok: bool)
      requires source != target
      modifies this
      ensures ok <==> !raises && source in old(files)
      ensures ok ==> files == old(files)[target := old(files)[source]] - {source}
      ensures ok ==> trace == old(trace) + [files]
      ensures !ok ==> files == old(files) && trace == old(trace)
    {
      ok := !raises && source in files;
      if ok {
        files := files[target := files[source]] - {source};
        trace := trace + [files];
      }
    }

    method Unlink(path: Path)
      requires path in files
      modifies this
      ensures files == old(files) - {path} && trace == old(trace) + [files]
    {
      files := files - {path};
      trace := trace + [files];
    }
  }

  // ------------------------------------------------------------------ promotion

  /** The original of such an entry is at its backup path. */
  predicate Holding(status: Status) {
    status == SetAside || status == Promoted || status == Removed
  }

  /** The list of backups made so far, and which entries they belong to. */
  ghost predicate Bookkeeping(f0: Files, staged: Staged, st: seq<Status>, backups: seq<(Path, Path)>, ids: seq<nat>) {
    && |ids| == |backups| && |st| == |staged|
    && (forall i, j :: 0 <= i < j < |ids| ==> ids[i] < ids[j])
    && (forall j :: 0 <= j < |ids| ==>
          && ids[j] < |staged| && staged[ids[j]].1 in f0
          && backups[j] == (Backup(staged[ids[j]].1), staged[ids[j]].1))
    && (forall i :: 0 <= i < |staged| && Holding(st[i]) && staged[i].1 in f0 ==> i in ids)
    && (forall j :: 0 <= j < |ids| ==> Holding(st[ids[j]]))
  }

  /** Entries before k are promoted, entry k may be set aside, later ones are untouched. */
  ghost predicate Front(st: seq<Status>, k: nat) {
    && k <= |st|
    && (forall i :: 0 <= i < k ==> st[i] == Promoted)
    && (forall i :: k < i < |st| ==> st[i] == Untouched)
    && (k < |st| ==> st[k] == Untouched || st[k] == SetAside)
  }

  /** Every state since the start keeps each original, or has all targets promoted. */
  ghost predicate TraceSafe(f0: Files, staged: Staged, trace: seq<Files>, start: nat) {
    start <= |trace|
    && forall j :: start <= j < |trace| ==> Recoverable(f0, trace[j], staged) || AllPromoted(f0, trace[j], staged)
  }

  /** What holds between any two file operations of the forward loop and of the rollback. */
  ghost predicate Progress(f0: Files, f: Files, trace: seq<Files>, staged: Staged, st: seq<Status>,
                           backups: seq<(Path, Path)>, ids: seq<nat>, start: nat)
  {
    && Separate(staged)
    && |st| == |staged| && |ids| == |backups|
    && StateIs(f0, f, staged, st)
    && (forall i :: 0 <= i < |st| ==> st[i] != Finished)
    && Bookkeeping(f0, staged, st, backups, ids)
    && TraceSafe(f0, staged, trace, start)
  }

  lemma SetAsideStep(f0: Files, f: Files, trace: seq<Files>, staged: Staged, st: seq<Status>,
                     backups: seq<(Path, Path)>, ids: seq<nat>, start: nat, k: nat, f': Files)
    requires Progress(f0, f, trace, staged, st, backups, ids, start)
    requires k < |staged| && st[k] == Untouched && forall j :: 0 <= j < |ids| ==> ids[j] < k
    requires var t := staged[k].1;
      t in f && Backup(t) !in f && f' == f[Backup(t) := f[t]] - {t}
    ensures var t := staged[k].1;
      Progress(f0, f', trace + [f'], staged, st[k := SetAside], backups + [(Backup(t), t)], ids + [k], start)
  {
    var t, st', ids' := staged[k].1, st[k := SetAside], ids + [k];
    assert EntryIs(f0, f, staged[k], Untouched);
    EntryStep(f0, f, f', staged, st, k, SetAside);
    StatesAreRecoverable(f0, f', staged, st');
    BookkeepingExtended(f0, staged, st, backups, ids, k);
  }

  lemma BookkeepingExtended(f0: Files, staged: Staged, st: seq<Status>, backups: seq<(Path, Path)>, ids: seq<nat>, k: nat)
    requires Bookkeeping(f0, staged, st, backups, ids)
    requires k < |staged| && staged[k].1 in f0 && forall j :: 0 <= j < |ids| ==> ids[j] < k
    ensures var t := staged[k].1;
      Bookkeeping(f0, staged, st[k := SetAside], backups + [(Backup(t), t)], ids + [k])
  {
    var ids' := ids + [k];
    assert k in ids';
    assert forall i :: i in ids ==> i in ids';
  }

  lemma BookkeepingKept(f0: Files, staged: Staged, st: seq<Status>, backups: seq<(Path, Path)>, ids: seq<nat>, k: nat, status: Status)
    requires Bookkeeping(f0, staged, st, backups, ids) && k < |staged|
    requires Holding(status) && (Holding(st[k]) || staged[k].1 !in f0)
    ensures Bookkeeping(f0, staged, st[k := status], backups, ids)
  {
  }

  lemma PromotedStep(f0: Files, f: Files, trace: seq<Files>, staged: Staged, st: seq<Status>,
                     backups: seq<(Path, Path)>, ids: seq<nat>, start: nat, k: nat, f': Files)
    requires Progress(f0, f, trace, staged, st, backups, ids, start) && k < |staged|
    requires var (s, t) := staged[k];
      && s in f && f' == f[t := f[s]] - {s}
      && (st[k] == SetAside || (st[k] == Untouched && t !in f && Backup(t) !in f))
    ensures Progress(f0, f', trace + [f'], staged, st[k := Promoted], backups, ids, start)
  {
    assert EntryIs(f0, f, staged[k], st[k]);
    EntryStep(f0, f, f', staged, st, k, Promoted);
    StatesAreRecoverable(f0, f', staged, st[k := Promoted]);
    BookkeepingKept(f0, staged, st, backups, ids, k, Promoted);
  }

  /** Some step of entry k raises: a fault, a stale backup or a missing source. */
  ghost predicate Blocked(f0: Files, staged: Staged, raises: (Path, Step) -> bool, k: nat)
    requires k < |staged|
  {
    var (source, target) := staged[k];
    || raises(target, MakeParent)
    || Backup(target) in f0
    || (target in f0 && raises(target, MoveToBackup))
    || raises(target, MoveToTarget)
    || source !in f0
  }

  /** The clean-up raises: removing the backup of some target that existed. */
  ghost predicate CleanUpBlocked(f0: Files, staged: Staged, raises: (Path, Step) -> bool) {
    exists k :: 0 <= k < |staged| && staged[k].1 in f0 && raises(staged[k].1, DropBackup)
  }

  lemma UntouchedEntry(f0: Files, f: Files, staged: Staged, st: seq<Status>, k: nat)
    requires StateIs(f0, f, staged, st) && k < |staged| && st[k] == Untouched
    ensures Same(f0, f, staged[k].0) && Same(f0, f, staged[k].1) && Same(f0, f, Backup(staged[k].1))
  {
    assert EntryIs(f0, f, staged[k], st[k]);
  }

  /** One pass of the forward loop. */
  method PromoteEntry(fs: FileSystem, ghost f0: Files, staged: Staged, ghost st: seq<Status>, k: nat,
                      raises: (Path, Step) -> bool, backups: seq<(Path, Path)>, ghost ids: seq<nat>, ghost start: nat)
    returns (ok: bool, backups': seq<(Path, Path)>, ghost st': seq<Status>, ghost ids': seq<nat>)
    requires k < |staged| && Progress(f0, fs.files, fs.trace, staged, st, backups, ids, start)
    requires Front(st, k) && st[k] == Untouched && forall j :: 0 <= j < |ids| ==> ids[j] < k
    modifies fs
    ensures Progress(f0, fs.files, fs.trace, staged, st', backups', ids', start)
    ensures if ok then Front(st', k + 1) && (k + 1 < |staged| ==> st'[k + 1] == Untouched) else Front(st', k)
    ensures forall j :: 0 <= j < |ids'| ==> ids'[j] <= k
    ensures ok <==> !Blocked(f0, staged, raises, k)
  {
    hide StateIs, Bookkeeping, TraceSafe, Separate;
    var (source, target) := staged[k];
    SeparateEntry(staged, k);
    UntouchedEntry(f0, fs.files, staged, st, k);
    ok, backups', st', ids' := false, backups, st, ids;
    if raises(target, MakeParent) {
      return;
    }
    var backup := Backup(target);
    if backup in fs.files {
      return;
    }
    if target in fs.files {
      ghost var f, trace := fs.files, fs.trace;
      var moved := fs.Replace(target, backup, raises(target, MoveToBackup));
      if !moved {
        return;
      }
      SetAsideStep(f0, f, trace, staged, st, backups, ids, start, k, fs.files);
      backups', st', ids' := backups + [(backup, target)], st[k := SetAside], ids + [k];
    }
    ghost var f, trace, mid := fs.files, fs.trace, st';
    ok := fs.Replace(source, target, raises(target, MoveToTarget));
    if ok {
      PromotedStep(f0, f, trace, staged, mid, backups', ids', start, k, fs.files);
      st' := mid[k := Promoted];
    }
  }

  lemma SeparateEntry(staged: Staged, k: nat)
    requires Separate(staged) && k < |staged|
    ensures staged[k].0 != staged[k].1 && staged[k].1 != Backup(staged[k].1) && staged[k].0 != Backup(staged[k].1)
  {
  }

  // ------------------------------------------------------------------- rollback

  lemma RemovedStep(f0: Files, f: Files, trace: seq<Files>, staged: Staged, st: seq<Status>,
                    backups: seq<(Path, Path)>, ids: seq<nat>, start: nat, k: nat, f': Files)
    requires Progress(f0, f, trace, staged, st, backups, ids, start)
    requires k < |staged| && st[k] == Promoted && f' == f - {staged[k].1}
    ensures Progress(f0, f', trace + [f'], staged, st[k := Removed], backups, ids, start)
  {
    assert EntryIs(f0, f, staged[k], Promoted);
    EntryStep(f0, f, f', staged, st, k, Removed);
    StatesAreRecoverable(f0, f', staged, st[k := Removed]);
    BookkeepingKept(f0, staged, st, backups, ids, k, Removed);
  }

  /** The state of an entry once its backup has been moved back. */
  function RestoredStatus(status: Status): Status {
    if status == Removed then Restored else Untouched
  }

  lemma BookkeepingShrinks(f0: Files, staged: Staged, st: seq<Status>, backups: seq<(Path, Path)>, ids: seq<nat>, j: nat, status: Status)
    requires Bookkeeping(f0, staged, st, backups, ids) && j + 1 == |ids| && !Holding(status)
    ensures ids[j] < |st| && Bookkeeping(f0, staged, st[ids[j] := status], backups[..j], ids[..j])
  {
    assert ids == ids[..j] + [ids[j]];
  }

  lemma RestoredStep(f0: Files, f: Files, trace: seq<Files>, staged: Staged, st: seq<Status>,
                     backups: seq<(Path, Path)>, ids: seq<nat>, start: nat, j: nat, f': Files)
    requires Progress(f0, f, trace, staged, st, backups, ids, start) && j + 1 == |ids|
    requires ids[j] < |st| && (st[ids[j]] == Removed || st[ids[j]] == SetAside)
    requires var t := staged[ids[j]].1;
      Backup(t) in f && f' == f[t := f[Backup(t)]] - {Backup(t)}
    ensures Progress(f0, f', trace + [f'], staged, st[ids[j] := RestoredStatus(st[ids[j]])], backups[..j], ids[..j], start)
  {
    var k := ids[j];
    var status := RestoredStatus(st[k]);
    assert EntryIs(f0, f, staged[k], st[k]);
    SeparateEntry(staged, k);
    EntryStep(f0, f, f', staged, st, k, status);
    StatesAreRecoverable(f0, f', staged, st[k := status]);
    BookkeepingShrinks(f0, staged, st, backups, ids, j, status);
  }

  /** First half of the rollback: remove what was promoted, last first. */
  method RemovePromoted(fs: FileSystem, ghost f0: Files, staged: Staged, ghost st: seq<Status>, ghost k: nat,
                        promoted: seq<Path>, ghost backups: seq<(Path, Path)>, ghost ids: seq<nat>, ghost start: nat)
    returns (ghost st': seq<Status>)
    requires Progress(f0, fs.files, fs.trace, staged, st, backups, ids, start)
    requires Front(st, k) && |promoted| == k && forall i :: 0 <= i < k ==> promoted[i] == staged[i].1
    modifies fs
    ensures Progress(f0, fs.files, fs.trace, staged, st', backups, ids, start)
    ensures forall i :: 0 <= i < |st'| ==> st'[i] != Promoted
  {
    hide StateIs, Bookkeeping, TraceSafe, Separate;
    st' := st;
    var n := |promoted|;
    while n > 0
      invariant 0 <= n <= k <= |st'| == |staged|
      invariant Progress(f0, fs.files, fs.trace, staged, st', backups, ids, start)
      invariant forall i :: 0 <= i < |st'| ==> (st'[i] == Promoted <==> i < n)
    {
      n := n - 1;
      ghost var f, trace := fs.files, fs.trace;
      PromotedTargetExists(f0, f, staged, st', n);
      if promoted[n] in fs.files {
        fs.Unlink(promoted[n]);
      }
      RemovedStep(f0, f, trace, staged, st', backups, ids, start, n, fs.files);
      st' := st'[n := Removed];
    }
  }

  /** Second half of the rollback: move every backup back, last first. */
  method RestoreBackups(fs: FileSystem, ghost f0: Files, staged: Staged, ghost st: seq<Status>,
                        backups: seq<(Path, Path)>, ghost ids: seq<nat>, ghost start: nat)
    returns (ghost st': seq<Status>)
    requires Progress(f0, fs.files, fs.trace, staged, st, backups, ids, start)
    requires forall i :: 0 <= i < |st| ==> st[i] != Promoted
    modifies fs
    ensures Progress(f0, fs.files, fs.trace, staged, st', [], [], start)
    ensures forall i :: 0 <= i < |st'| ==> st'[i] != Promoted
  {
    st' := st;
    var m := |backups|;
    assert backups[..m] == backups && ids[..m] == ids;
    while m > 0
      invariant 0 <= m <= |backups| == |ids|
      invariant Progress(f0, fs.files, fs.trace, staged, st', backups[..m], ids[..m], start)
      invariant forall i :: 0 <= i < |st'| ==> st'[i] != Promoted
    {
      hide StateIs, Bookkeeping, TraceSafe, Separate;
      m := m - 1;
      ghost var f, trace, k := fs.files, fs.trace, ids[m];
      LastBackupExists(f0, f, trace, staged, st', backups, ids, start, m);
      var (backup, target) := backups[m];
      if backup in fs.files {
        var moved := fs.Replace(backup, target, false);
      }
      RestoredStep(f0, f, trace, staged, st', backups[..m + 1], ids[..m + 1], start, m, fs.files);
      assert backups[..m + 1][..m] == backups[..m] && ids[..m + 1][..m] == ids[..m];
      st' := st'[k := RestoredStatus(st'[k])];
    }
  }

  lemma LastBackupExists(f0: Files, f: Files, trace: seq<Files>, staged: Staged, st: seq<Status>,
                         backups: seq<(Path, Path)>, ids: seq<nat>, start: nat, m: nat)
    requires m < |backups| == |ids|
    requires Progress(f0, f, trace, staged, st, backups[..m + 1], ids[..m + 1], start)
    ensures ids[m] < |staged| && Holding(st[ids[m]])
    ensures var t := staged[ids[m]].1; backups[m] == (Backup(t), t) && Backup(t) in f && Backup(t) != t
  {
    BackupExists(f0, f, staged, st, backups[..m + 1], ids[..m + 1], m);
  }

  lemma PromotedTargetExists(f0: Files, f: Files, staged: Staged, st: seq<Status>, k: nat)
    requires StateIs(f0, f, staged, st) && k < |staged| && st[k] == Promoted
    ensures staged[k].1 in f
  {
    assert EntryIs(f0, f, staged[k], st[k]);
  }

  lemma BackupExists(f0: Files, f: Files, staged: Staged, st: seq<Status>, backups: seq<(Path, Path)>, ids: seq<nat>, j: nat)
    requires Separate(staged) && StateIs(f0, f, staged, st) && Bookkeeping(f0, staged, st, backups, ids) && j < |ids|
    ensures ids[j] < |staged| && Holding(st[ids[j]])
    ensures var t := staged[ids[j]].1; backups[j] == (Backup(t), t) && Backup(t) in f && Backup(t) != t
  {
    assert EntryIs(f0, f, staged[ids[j]], st[ids[j]]);
    SeparateEntry(staged, ids[j]);
  }

  // -------------------------------------------------------------- whole promotion

  /** The original state of every target and backup path; nothing outside the list has changed. */
  ghost predicate Undone(f0: Files, f: Files, staged: Staged) {
    && (forall i :: 0 <= i < |staged| ==> Same(f0, f, staged[i].1) && Same(f0, f, Backup(staged[i].1)))
    && (forall p :: !Touched(staged, p) ==> Same(f0, f, p))
  }

  /** Every target holds its staged content; nothing outside the list has changed. */
  ghost predicate Installed(f0: Files, f: Files, staged: Staged) {
    AllPromoted(f0, f, staged) && forall p :: !Touched(staged, p) ==> Same(f0, f, p)
  }

  /**
   * Promote the whole list or nothing. A failure before the last move leaves every
   * target as it was; success leaves every target with its staged content and no
   * backup. At every state in between each original is at its target or backup,
   * until all targets are promoted.
   */
  method PromoteCompleteRefresh(fs: FileSystem, staged: Staged, raises: (Path, Step) -> bool) returns (outcome: Outcome)
    requires Separate(staged)
    modifies fs
    ensures outcome.RolledBack? <==> exists k :: 0 <= k < |staged| && Blocked(old(fs.files), staged, raises, k)
    ensures outcome.CleanUpFailed? <==> !outcome.RolledBack? && CleanUpBlocked(old(fs.files), staged, raises)
    ensures outcome.RolledBack? ==> Undone(old(fs.files), fs.files, staged)
    ensures !outcome.RolledBack? ==> Installed(old(fs.files), fs.files, staged)
    ensures outcome.Complete? ==> forall i :: 0 <= i < |staged| ==> Backup(staged[i].1) !in fs.files
    ensures TraceSafe(old(fs.files), staged, fs.trace, |old(fs.trace)|)
  {
    hide StateIs, Bookkeeping, TraceSafe, Separate, Undone, Installed, Blocked, CleanUpBlocked;
    ghost var f0, start := fs.files, |fs.trace|;
    ghost var st: seq<Status> := seq(|staged|, _ => Untouched);
    ghost var ids: seq<nat> := [];
    var backups: seq<(Path, Path)>, promoted: seq<Path> := [], [];
    NothingDone(f0, fs.trace, staged, st);
    for k := 0 to |staged|
      invariant Progress(f0, fs.files, fs.trace, staged, st, backups, ids, start)
      invariant Front(st, k) && (k < |staged| ==> st[k] == Untouched)
      invariant forall i :: 0 <= i < k ==> !Blocked(f0, staged, raises, i)
      invariant forall j :: 0 <= j < |ids| ==> ids[j] < k
      invariant |promoted| == k && forall i :: 0 <= i < k ==> promoted[i] == staged[i].1
    {
      var ok;
      ok, backups, st, ids := PromoteEntry(fs, f0, staged, st, k, raises, backups, ids, start);
      if !ok {
        st := RemovePromoted(fs, f0, staged, st, k, promoted, backups, ids, start);
        st := RestoreBackups(fs, f0, staged, st, backups, ids, start);
        NothingHeld(f0, fs.files, staged, st);
        return RolledBack;
      }
      promoted := promoted + [staged[k].1];
    }
    var clean := DropBackups(fs, f0, staged, st, raises, backups, ids, start);
    outcome := if clean then Complete else CleanUpFailed;
  }

  lemma NothingDone(f0: Files, trace: seq<Files>, staged: Staged, st: seq<Status>)
    requires Separate(staged) && |st| == |staged| && forall i :: 0 <= i < |st| ==> st[i] == Untouched
    ensures Progress(f0, f0, trace, staged, st, [], [], |trace|)
  {
    assert forall i :: 0 <= i < |staged| ==> EntryIs(f0, f0, staged[i], st[i]);
  }

  /** The loop after the try block, which may raise before any of its unlinks. */
  method DropBackups(fs: FileSystem, ghost f0: Files, staged: Staged, ghost st: seq<Status>, raises: (Path, Step) -> bool,
                     backups: seq<(Path, Path)>, ghost ids: seq<nat>, ghost start: nat) returns (clean: bool)
    requires Progress(f0, fs.files, fs.trace, staged, st, backups, ids, start) && Front(st, |staged|)
    modifies fs
    ensures Installed(f0, fs.files, staged) && TraceSafe(f0, staged, fs.trace, start)
    ensures clean ==> forall i :: 0 <= i < |staged| ==> Backup(staged[i].1) !in fs.files
    ensures clean <==> !CleanUpBlocked(f0, staged, raises)
  {
    hide Bookkeeping, StateIs, TraceSafe, Separate, Installed, CleanUpBlocked;
    ghost var st := st;
    BackupsOfExisting(f0, staged, st, backups, ids, raises);
    assert backups[0..] == backups && ids[0..] == ids;
    for m := 0 to |backups|
      invariant Cleaning(f0, fs.files, fs.trace, staged, st, backups, ids, start, m)
      invariant forall j :: 0 <= j < m ==> !raises(backups[j].1, DropBackup)
    {
      if raises(backups[m].1, DropBackup) {
        PromotedIsInstalled(f0, fs.files, staged, st);
        return false;
      }
      ghost var f, trace := fs.files, fs.trace;
      CleaningStep(f0, f, trace, staged, st, backups, ids, start, m, f - {backups[m].0});
      fs.Unlink(backups[m].0);
      st := st[ids[m] := Finished];
    }
    PromotedIsInstalled(f0, fs.files, staged, st);
    AllBackupsDropped(f0, fs.files, fs.trace, staged, st, backups, ids, start);
    clean := true;
  }

  /** After the forward loop the backups are those of the targets that existed. */
  lemma BackupsOfExisting(f0: Files, staged: Staged, st: seq<Status>, backups: seq<(Path, Path)>, ids: seq<nat>,
                          raises: (Path, Step) -> bool)
    requires Bookkeeping(f0, staged, st, backups, ids) && Front(st, |staged|)
    ensures CleanUpBlocked(f0, staged, raises) <==> exists j :: 0 <= j < |backups| && raises(backups[j].1, DropBackup)
  {
    if CleanUpBlocked(f0, staged, raises) {
      var k :| 0 <= k < |staged| && staged[k].1 in f0 && raises(staged[k].1, DropBackup);
      var j :| 0 <= j < |ids| && ids[j] == k;
      assert backups[j].1 == staged[k].1;
    }
    if j :| 0 <= j < |backups| && raises(backups[j].1, DropBackup) {
      assert staged[ids[j]].1 == backups[j].1;
    }
  }

  /** After the forward loop: the first m backups are gone, the others still there. */
  ghost predicate Cleaning(f0: Files, f: Files, trace: seq<Files>, staged: Staged, st: seq<Status>,
                           backups: seq<(Path, Path)>, ids: seq<nat>, start: nat, m: nat)
  {
    && Separate(staged) && StateIs(f0, f, staged, st) && TraceSafe(f0, staged, trace, start)
    && |ids| == |backups| && m <= |ids|
    && (forall i :: 0 <= i < |st| ==> st[i] == Promoted || st[i] == Finished)
    && Bookkeeping(f0, staged, st, backups[m..], ids[m..])
  }

  lemma CleaningStep(f0: Files, f: Files, trace: seq<Files>, staged: Staged, st: seq<Status>,
                     backups: seq<(Path, Path)>, ids: seq<nat>, start: nat, m: nat, f': Files)
    requires Cleaning(f0, f, trace, staged, st, backups, ids, start, m) && m < |ids|
    requires f' == f - {backups[m].0}
    ensures backups[m].0 in f && ids[m] < |st|
    ensures Cleaning(f0, f', trace + [f'], staged, st[ids[m] := Finished], backups, ids, start, m + 1)
  {
    var k := ids[m];
    assert ids[m..][0] == k && backups[m..][0] == backups[m];
    BackupExists(f0, f, staged, st, backups[m..], ids[m..], 0);
    assert EntryIs(f0, f, staged[k], st[k]);
    EntryStep(f0, f, f', staged, st, k, Finished);
    PromotedIsInstalled(f0, f', staged, st[k := Finished]);
    assert ids[m..] == [k] + ids[m + 1..] && backups[m..] == [backups[m]] + backups[m + 1..];
    BookkeepingDropsFirst(f0, staged, st, backups[m..], ids[m..]);
    assert ids[m..][1..] == ids[m + 1..] && backups[m..][1..] == backups[m + 1..];
  }

  lemma BookkeepingDropsFirst(f0: Files, staged: Staged, st: seq<Status>, backups: seq<(Path, Path)>, ids: seq<nat>)
    requires Bookkeeping(f0, staged, st, backups, ids) && ids != []
    ensures ids[0] < |st| && Bookkeeping(f0, staged, st[ids[0] := Finished], backups[1..], ids[1..])
  {
    assert ids == [ids[0]] + ids[1..];
  }

  lemma NothingHeld(f0: Files, f: Files, staged: Staged, st: seq<Status>)
    requires StateIs(f0, f, staged, st) && Bookkeeping(f0, staged, st, [], [])
    requires forall i :: 0 <= i < |st| ==> st[i] != Promoted && st[i] != Finished
    ensures Undone(f0, f, staged)
  {
    forall i | 0 <= i < |staged|
      ensures Same(f0, f, staged[i].1) && Same(f0, f, Backup(staged[i].1))
    {
      assert EntryIs(f0, f, staged[i], st[i]);
    }
  }

  lemma PromotedIsInstalled(f0: Files, f: Files, staged: Staged, st: seq<Status>)
    requires StateIs(f0, f, staged, st)
    requires forall i :: 0 <= i < |st| ==> st[i] == Promoted || st[i] == Finished
    ensures Installed(f0, f, staged)
  {
    forall i | 0 <= i < |staged|
      ensures staged[i].0 in f0 && staged[i].1 in f && f[staged[i].1] == f0[staged[i].0]
    {
      assert EntryIs(f0, f, staged[i], st[i]);
    }
  }

  lemma AllBackupsDropped(f0: Files, f: Files, trace: seq<Files>, staged: Staged, st: seq<Status>,
                          backups: seq<(Path, Path)>, ids: seq<nat>, start: nat)
    requires Cleaning(f0, f, trace, staged, st, backups, ids, start, |backups|)
    ensures forall i :: 0 <= i < |staged| ==> Backup(staged[i].1) !in f
  {
    forall i | 0 <= i < |staged|
      ensures Backup(staged[i].1) !in f
    {
      assert EntryIs(f0, f, staged[i], st[i]);
    }
  }
}
