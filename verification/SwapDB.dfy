/**
 Restoring a database file (swapDB and copyFile in internal/cli/backup.go).

 The protocol is a machine with one step per file-system call, so that a crash is a run cut off
 after any step.  Each call may fail, as an oracle decides; `ReplaceDatabase` performs the calls and is
 proved to follow the machine.
 */
module SwapDB {
  import opened Wrappers

  type Content = Bytes

  /** The files next to the database: path, path.new, path.old, path-wal and path-shm. */
  datatype Name = Live | New | Old | Wal | Shm

  type Files = map<Name, Content>

  // ----- File-system calls -----

  function Remove(fs: Files, n: Name, fails: bool): Files {
    if fails then fs else fs - {n}
  }

  predicate Renames(fs: Files, from: Name, fails: bool) {
    !fails && from in fs
  }

  /** A successful rename replaces the target; any other leaves everything in place. */
  function Rename(fs: Files, from: Name, to: Name, fails: bool): Files {
    if Renames(fs, from, fails) then (fs - {from})[to := fs[from]] else fs
  }

  // ----- The protocol, one call at a time -----

  datatype Pc =
    | RemoveWal | RemoveShm | ClearNew
    | OpenSource | CreateNew | Copying(k: nat) | CloseNew
    | ClearOld | StatLive | Retire | DropUnused
    | Publish | RollBack | DropUnpublished | DropOld
    | Done(ok: bool)

  datatype State = State(files: Files, pc: Pc, src: Content)

  /** Which calls fail; `Copying(k)` is the write after `k` bytes. */
  type Oracle = Pc -> bool

  function Step(s: State, f: Oracle): State {
    var fs, fails := s.files, f(s.pc);
    match s.pc
    case RemoveWal => State(Remove(fs, Wal, fails), RemoveShm, s.src)
    case RemoveShm => State(Remove(fs, Shm, fails), ClearNew, s.src)
    case ClearNew => State(Remove(fs, New, fails), OpenSource, s.src)
    case OpenSource => State(fs, if fails then Done(false) else CreateNew, s.src)
    case CreateNew => if fails then State(fs, Done(false), s.src) else State(fs[New := []], Copying(0), s.src)
    case Copying(k) =>
      if fails then State(fs, Done(false), s.src)
      else if k >= |s.src| then State(fs, CloseNew, s.src)
      else State(fs[New := s.src[..k + 1]], Copying(k + 1), s.src)
    case CloseNew => State(fs, if fails then Done(false) else ClearOld, s.src)
    case ClearOld => State(Remove(fs, Old, fails), StatLive, s.src)
    case StatLive => State(fs, if Live in fs && !fails then Retire else Publish, s.src)
    case Retire => State(Rename(fs, Live, Old, fails), if Renames(fs, Live, fails) then Publish else DropUnused, s.src)
    case DropUnused => State(Remove(fs, New, fails), Done(false), s.src)
    case Publish => State(Rename(fs, New, Live, fails), if Renames(fs, New, fails) then DropOld else RollBack, s.src)
    case RollBack => State(Rename(fs, Old, Live, fails), DropUnpublished, s.src)
    case DropUnpublished => State(Remove(fs, New, fails), Done(false), s.src)
    case DropOld => State(Remove(fs, Old, fails), Done(true), s.src)
    case Done(_) => s
  }

  /** The state after `n` calls of a run that restores `src`; a crash leaves the files of such a state. */
  function Exec(start: Files, src: Content, f: Oracle, n: nat): State {
    if n == 0 then State(start, RemoveWal, src) else Step(Exec(start, src, f, n - 1), f)
  }

  // ----- What the files are at each step -----

  /** The two files that may hold the only copy of the database. */
  function Kept(fs: Files): Files {
    map n | n in fs && (n == Live || n == Old) :: fs[n]
  }

  function Cleared(start: Files, f: Oracle): Files {
    Remove(Kept(start), Old, f(ClearOld))
  }

  /** The live file is moved aside when it is seen. */
  predicate Retires(start: Files, f: Oracle) {
    Live in start && !f(StatLive)
  }

  function Retired(start: Files, f: Oracle): Files {
    if Retires(start, f) then Rename(Cleared(start, f), Live, Old, f(Retire)) else Cleared(start, f)
  }

  function RolledBack(start: Files, f: Oracle): Files {
    Rename(Retired(start, f), Old, Live, f(RollBack))
  }

  predicate Copies(src: Content, f: Oracle) {
    !f(OpenSource) && !f(CreateNew) && !f(CloseNew) && forall k :: 0 <= k <= |src| ==> !f(Copying(k))
  }

  predicate Holds(fs: Files, n: Name, c: Content) {
    n in fs && fs[n] == c
  }

  /** The files at every step, as a function of the files at the start and of the calls that fail. */
  predicate Described(start: Files, f: Oracle, s: State) {
    var fs := s.files;
    match s.pc
    case RemoveWal => fs == start
    case RemoveShm | ClearNew | OpenSource => Kept(fs) == Kept(start)
    case CreateNew => Kept(fs) == Kept(start) && !f(OpenSource)
    case Copying(k) =>
      && Kept(fs) == Kept(start) && !f(OpenSource) && !f(CreateNew)
      && k <= |s.src| && Holds(fs, New, s.src[..k]) && forall j :: 0 <= j < k ==> !f(Copying(j))
    case CloseNew =>
      && Kept(fs) == Kept(start) && !f(OpenSource) && !f(CreateNew)
      && Holds(fs, New, s.src) && forall j :: 0 <= j <= |s.src| ==> !f(Copying(j))
    case ClearOld => Kept(fs) == Kept(start) && Holds(fs, New, s.src) && Copies(s.src, f)
    case StatLive => Kept(fs) == Cleared(start, f) && Holds(fs, New, s.src) && Copies(s.src, f)
    case Retire => Kept(fs) == Cleared(start, f) && Holds(fs, New, s.src) && Copies(s.src, f) && Retires(start, f)
    case DropUnused =>
      && Kept(fs) == Cleared(start, f) && Holds(fs, New, s.src) && Copies(s.src, f)
      && Retires(start, f) && f(Retire)
    case Publish =>
      && Kept(fs) == Retired(start, f) && Holds(fs, New, s.src) && Copies(s.src, f)
      && (Retires(start, f) ==> !f(Retire))
    case RollBack =>
      && Kept(fs) == Retired(start, f) && Holds(fs, New, s.src) && Copies(s.src, f) && f(Publish)
      && (Retires(start, f) ==> !f(Retire))
    case DropUnpublished =>
      && Kept(fs) == RolledBack(start, f) && Holds(fs, New, s.src) && Copies(s.src, f) && f(Publish)
      && (Retires(start, f) ==> !f(Retire))
    case DropOld => Kept(fs) == Retired(start, f)[Live := s.src] && Copies(s.src, f)
    case Done(true) => Kept(fs) == Remove(Retired(start, f)[Live := s.src], Old, f(DropOld)) && Copies(s.src, f)
    case Done(false) => Failed(start, f, s)
  }

  /** The three ways a run gives up: while copying, while retiring, or while publishing. */
  predicate Failed(start: Files, f: Oracle, s: State) {
    if !Copies(s.src, f) then Kept(s.files) == Kept(start)
    else if Retires(start, f) && f(Retire) then Kept(s.files) == Cleared(start, f)
    else
      && f(Publish) && Kept(s.files) == RolledBack(start, f)
      && if f(DropUnpublished) then Holds(s.files, New, s.src) else New !in s.files
  }

  lemma KeptBySideFiles(fs: Files, n: Name, c: Content, fails: bool)
    requires n != Live && n != Old
    ensures Kept(Remove(fs, n, fails)) == Kept(fs) && Kept(fs[n := c]) == Kept(fs)
  {
  }

  lemma KeptByMoves(fs: Files, from: Name, to: Name, fails: bool)
    requires (from == Live || from == Old) && (to == Live || to == Old) && from != to
    ensures Kept(Rename(fs, from, to, fails)) == Rename(Kept(fs), from, to, fails)
    ensures Kept(Remove(fs, from, fails)) == Remove(Kept(fs), from, fails)
  {
  }

  lemma KeptByPublish(fs: Files, fails: bool)
    ensures Kept(Rename(fs, New, Live, fails))
            == if Renames(fs, New, fails) then Kept(fs)[Live := fs[New]] else Kept(fs)
  {
  }

  predicate Preparing(pc: Pc) {
    pc.RemoveWal? || pc.RemoveShm? || pc.ClearNew? || pc.OpenSource? || pc.CreateNew? || pc.Copying? || pc.CloseNew?
  }

  lemma StepPreparing(start: Files, f: Oracle, s: State)
    requires Described(start, f, s) && Preparing(s.pc)
    ensures Described(start, f, Step(s, f))
  {
    KeptBySideFiles(s.files, Wal, [], f(s.pc));
    KeptBySideFiles(s.files, Shm, [], f(s.pc));
    KeptBySideFiles(s.files, New, [], f(s.pc));
    if s.pc.Copying? {
      if s.pc.k < |s.src| {
        KeptBySideFiles(s.files, New, s.src[..s.pc.k + 1], false);
      } else {
        assert s.src[..s.pc.k] == s.src;
      }
    }
  }

  lemma StepClearing(start: Files, f: Oracle, s: State)
    requires Described(start, f, s) && (s.pc.ClearOld? || s.pc.StatLive?)
    ensures Described(start, f, Step(s, f))
  {
    KeptByMoves(s.files, Old, Live, f(s.pc));
    assert Live in Kept(s.files) <==> Live in s.files;
    assert Live in Kept(start) <==> Live in start;
  }

  lemma StepRetiring(start: Files, f: Oracle, s: State)
    requires Described(start, f, s) && (s.pc.Retire? || s.pc.DropUnused?)
    ensures Described(start, f, Step(s, f))
  {
    KeptByMoves(s.files, Live, Old, f(s.pc));
    KeptBySideFiles(s.files, New, [], f(s.pc));
  }

  lemma StepPublishing(start: Files, f: Oracle, s: State)
    requires Described(start, f, s) && !Preparing(s.pc)
    requires !s.pc.ClearOld? && !s.pc.StatLive? && !s.pc.Retire? && !s.pc.DropUnused?
    ensures Described(start, f, Step(s, f))
  {
    KeptByMoves(s.files, Old, Live, f(s.pc));
    KeptBySideFiles(s.files, New, [], f(s.pc));
    KeptByPublish(s.files, f(s.pc));
  }

  lemma {:induction false} ExecDescribed(start: Files, src: Content, f: Oracle, n: nat, s: State)
    requires s == Exec(start, src, f, n)
    ensures s.src == src && Described(start, f, s)
    decreases n
  {
    if n > 0 {
      var before := Exec(start, src, f, n - 1);
      ExecDescribed(start, src, f, n - 1, before);
      if Preparing(before.pc) {
        StepPreparing(start, f, before);
      } else if before.pc.ClearOld? || before.pc.StatLive? {
        StepClearing(start, f, before);
      } else if before.pc.Retire? || before.pc.DropUnused? {
        StepRetiring(start, f, before);
      } else {
        StepPublishing(start, f, before);
      }
    }
  }

  // ----- What is at path.new at each step -----

  /** The `k` bytes written before a write, or closing the file, failed. */
  ghost predicate StopsAt(src: Content, f: Oracle, k: int) {
    0 <= k <= |src| && (forall j :: 0 <= j < k ==> !f(Copying(j))) && (k == |src| || f(Copying(k)))
  }

  /** As at the start, unless it was cleared. */
  ghost predicate NewUncopied(start: Files, f: Oracle, fs: Files, cleared: bool) {
    if cleared && !f(ClearNew) then New !in fs
    else (New in fs <==> New in start) && (New in fs ==> fs[New] == start[New])
  }

  /** What a run that gave up leaves at path.new: the first bytes when copying failed, and else all or nothing. */
  ghost predicate NewAfterFailure(start: Files, f: Oracle, fs: Files, src: Content) {
    if f(OpenSource) || f(CreateNew) then NewUncopied(start, f, fs, true)
    else if !Copies(src, f) then exists k :: StopsAt(src, f, k) && Holds(fs, New, src[..k])
    else if f(if Retires(start, f) && f(Retire) then DropUnused else DropUnpublished) then Holds(fs, New, src)
    else New !in fs
  }

  /** The file at path.new at every step. */
  ghost predicate NewAt(start: Files, f: Oracle, s: State) {
    match s.pc
    case RemoveWal | RemoveShm | ClearNew => NewUncopied(start, f, s.files, false)
    case OpenSource => NewUncopied(start, f, s.files, true)
    case CreateNew => NewUncopied(start, f, s.files, true)
    case DropOld | Done(true) => New !in s.files
    case Done(false) => NewAfterFailure(start, f, s.files, s.src)
    case _ => true
  }

  lemma CopyStops(start: Files, f: Oracle, s: State)
    requires Described(start, f, s) && s.pc.Copying? && f(s.pc)
    ensures NewAfterFailure(start, f, s.files, s.src)
  {
    assert StopsAt(s.src, f, s.pc.k);
    assert 0 <= s.pc.k <= |s.src| && f(Copying(s.pc.k));
  }

  lemma CloseStops(start: Files, f: Oracle, s: State)
    requires Described(start, f, s) && s.pc.CloseNew? && f(s.pc)
    ensures NewAfterFailure(start, f, s.files, s.src)
  {
    assert StopsAt(s.src, f, |s.src|) && s.src[..|s.src|] == s.src;
  }

  lemma StepNewAt(start: Files, f: Oracle, s: State)
    requires Described(start, f, s) && NewAt(start, f, s)
    ensures NewAt(start, f, Step(s, f))
  {
    if s.pc.Copying? && f(s.pc) {
      CopyStops(start, f, s);
    } else if s.pc.CloseNew? && f(s.pc) {
      CloseStops(start, f, s);
    }
  }

  /** Whatever fails, path.new is a function of the start and the calls that fail: see `NewAfterFailure`. */
  lemma {:induction false} NewDescribed(start: Files, src: Content, f: Oracle, n: nat, s: State)
    requires s == Exec(start, src, f, n)
    ensures NewAt(start, f, s)
    decreases n
  {
    if n > 0 {
      var before := Exec(start, src, f, n - 1);
      NewDescribed(start, src, f, n - 1, before);
      ExecDescribed(start, src, f, n - 1, before);
      StepNewAt(start, f, before);
    }
  }

  // ----- Crash safety -----

  /** Whatever is at path or path.old is a whole database. */
  predicate Sound(fs: Files, good: set<Content>) {
    (Live in fs ==> fs[Live] in good) && (Old in fs ==> fs[Old] in good)
  }

  /** One of path, path.old and path.new is a whole database. */
  predicate Recoverable(fs: Files, good: set<Content>) {
    || (Live in fs && fs[Live] in good)
    || (Old in fs && fs[Old] in good)
    || (New in fs && fs[New] in good)
  }

  lemma KeptSound(fs: Files, k: Files, good: set<Content>)
    requires Kept(fs) == k && Sound(k, good)
    ensures Sound(fs, good) && (Live in k || Old in k ==> Recoverable(fs, good))
  {
    assert forall n :: n == Live || n == Old ==> (n in k <==> n in fs) && (n in fs ==> k[n] == fs[n]);
  }

  /** Whichever calls fail and wherever the run is cut off, path and path.old hold whole databases. */
  lemma SoundAtEveryStep(start: Files, src: Content, f: Oracle, n: nat, good: set<Content>)
    requires Sound(start, good) && src in good
    ensures Sound(Exec(start, src, f, n).files, good)
  {
    var s := Exec(start, src, f, n);
    ExecDescribed(start, src, f, n, s);
    KeptSound(s.files, Kept(s.files), good);
  }

  /** The one way to end up without any database: the only copy was path.old, and publishing failed. */
  predicate Loses(start: Files, src: Content, f: Oracle) {
    Live !in start && Copies(src, f) && !f(ClearOld) && f(Publish) && !f(DropUnpublished)
  }

  lemma DescribedRecoverable(start: Files, f: Oracle, s: State, good: set<Content>)
    requires Described(start, f, s) && Sound(start, good) && s.src in good
    requires Live in start || Old in start
    ensures Recoverable(s.files, good) <==> !(s.pc == Done(false) && Loses(start, s.src, f))
  {
    KeptSound(s.files, Kept(s.files), good);
    assert Live in Kept(s.files) <==> Live in s.files;
    assert Old in Kept(s.files) <==> Old in s.files;
    assert Live in Kept(start) || Old in Kept(start);
  }

  /**
   From a start with path or path.old in place, some whole database is there after every call,
   whichever calls fail, except at the end of a run that loses it.
   */
  lemma RecoverableDuringARun(start: Files, src: Content, f: Oracle, n: nat, good: set<Content>)
    requires Sound(start, good) && src in good
    requires Live in start || Old in start
    ensures Recoverable(Exec(start, src, f, n).files, good)
            <==> !(Exec(start, src, f, n).pc == Done(false) && Loses(start, src, f))
  {
    ExecDescribed(start, src, f, n, Exec(start, src, f, n));
    DescribedRecoverable(start, f, Exec(start, src, f, n), good);
  }

  /** No call fails; a run can only be cut off. */
  function NoFaults(): (f: Oracle)
    ensures forall pc :: !f(pc)
  {
    (pc: Pc) => false
  }

  lemma EarlySteps(start: Files, src: Content, f: Oracle)
    requires !f(RemoveWal) && !f(RemoveShm) && !f(ClearNew)
    ensures Exec(start, src, f, 3) == State(start - {Wal} - {Shm} - {New}, OpenSource, src)
  {
    assert Exec(start, src, f, 0).pc == RemoveWal;
    assert Exec(start, src, f, 1) == State(start - {Wal}, RemoveShm, src);
    assert Exec(start, src, f, 2) == State(start - {Wal} - {Shm}, ClearNew, src);
  }

  /** A run that can only be cut off keeps a whole database throughout exactly when it starts with path or path.old. */
  lemma CrashSafeIffPathOrOld(start: Files, src: Content, good: set<Content>)
    requires Sound(start, good) && src in good
    ensures (forall n: nat :: Recoverable(Exec(start, src, NoFaults(), n).files, good))
            <==> Live in start || Old in start
  {
    if Live in start || Old in start {
      forall n: nat
        ensures Recoverable(Exec(start, src, NoFaults(), n).files, good)
      {
        RecoverableDuringARun(start, src, NoFaults(), n, good);
      }
    } else {
      EarlySteps(start, src, NoFaults());
      assert !Recoverable(Exec(start, src, NoFaults(), 3).files, good);
    }
  }

  // ----- Sequences of interrupted runs -----

  /** One attempt to restore `src`, cut off after some number of calls. */
  datatype Attempt = Attempt(src: Content, f: Oracle, calls: nat)

  function After(start: Files, attempts: seq<Attempt>): Files {
    if attempts == [] then start
    else
      var a := attempts[|attempts| - 1];
      Exec(After(start, attempts[..|attempts| - 1]), a.src, a.f, a.calls).files
  }

  lemma {:induction false} SoundAfterAnyAttempts(start: Files, attempts: seq<Attempt>, good: set<Content>)
    requires Sound(start, good) && forall i :: 0 <= i < |attempts| ==> attempts[i].src in good
    ensures Sound(After(start, attempts), good)
    decreases |attempts|
  {
    if attempts != [] {
      var a := attempts[|attempts| - 1];
      SoundAfterAnyAttempts(start, attempts[..|attempts| - 1], good);
      SoundAtEveryStep(After(start, attempts[..|attempts| - 1]), a.src, a.f, a.calls, good);
    }
  }

  /** Every attempt finds path or path.old, and none fails to publish the only copy. */
  predicate Guarded(start: Files, attempts: seq<Attempt>) {
    forall i :: 0 <= i < |attempts| ==>
      var before := After(start, attempts[..i]);
      (Live in before || Old in before) && !Loses(before, attempts[i].src, attempts[i].f)
  }

  lemma {:induction false} RecoverableAfterGuardedAttempts(start: Files, attempts: seq<Attempt>, good: set<Content>)
    requires Sound(start, good) && Recoverable(start, good)
    requires forall i :: 0 <= i < |attempts| ==> attempts[i].src in good
    requires Guarded(start, attempts)
    ensures Recoverable(After(start, attempts), good)
  {
    if attempts != [] {
      var n := |attempts| - 1;
      var a, before := attempts[n], After(start, attempts[..n]);
      SoundAfterAnyAttempts(start, attempts[..n], good);
      RecoverableDuringARun(before, a.src, a.f, a.calls, good);
    }
  }

  /** The attempt restores a whole database, and no call of it fails. */
  ghost predicate OnlyCutOff(a: Attempt, good: set<Content>) {
    a.src in good && forall pc :: !a.f(pc)
  }

  /** A whole database is there at whichever call the attempt is cut off. */
  ghost predicate WholeDuring(start: Files, a: Attempt, good: set<Content>) {
    forall n: nat :: n <= a.calls ==> Recoverable(Exec(start, a.src, a.f, n).files, good)
  }

  /** The attempt finds path or path.old, or is cut off before it clears path.new. */
  predicate Endures(start: Files, a: Attempt) {
    Live in start || Old in start || a.calls < 3
  }

  lemma NewStaysAtFirst(start: Files, src: Content, f: Oracle, n: nat)
    requires n < 3 && New in start
    ensures Holds(Exec(start, src, f, n).files, New, start[New])
    ensures Exec(start, src, f, n).pc == if n == 0 then RemoveWal else if n == 1 then RemoveShm else ClearNew
  {
    if n > 0 {
      NewStaysAtFirst(start, src, f, n - 1);
    }
  }

  lemma WholeDuringIff(start: Files, a: Attempt, good: set<Content>)
    requires Sound(start, good) && Recoverable(start, good) && OnlyCutOff(a, good)
    ensures WholeDuring(start, a, good) <==> Endures(start, a)
  {
    if Live in start || Old in start {
      forall n: nat
        ensures Recoverable(Exec(start, a.src, a.f, n).files, good)
      {
        RecoverableDuringARun(start, a.src, a.f, n, good);
      }
    } else if a.calls < 3 {
      forall n: nat | n <= a.calls
        ensures Recoverable(Exec(start, a.src, a.f, n).files, good)
      {
        NewStaysAtFirst(start, a.src, a.f, n);
      }
    } else {
      EarlySteps(start, a.src, a.f);
      assert !Recoverable(Exec(start, a.src, a.f, 3).files, good);
    }
  }

  lemma WholeAtTheEnds(start: Files, a: Attempt, good: set<Content>)
    requires WholeDuring(start, a, good)
    ensures Recoverable(start, good) && Recoverable(Exec(start, a.src, a.f, a.calls).files, good)
  {
    assert Exec(start, a.src, a.f, 0).files == start;
  }

  ghost predicate WholeAt(start: Files, attempts: seq<Attempt>, i: nat, good: set<Content>)
    requires i < |attempts|
  {
    WholeDuring(After(start, attempts[..i]), attempts[i], good)
  }

  predicate EnduresAt(start: Files, attempts: seq<Attempt>, i: nat)
    requires i < |attempts|
  {
    Endures(After(start, attempts[..i]), attempts[i])
  }

  /** The first `k` attempts are whole throughout, or endure. */
  ghost predicate AllWhole(start: Files, attempts: seq<Attempt>, k: nat, good: set<Content>)
    requires k <= |attempts|
  {
    forall i :: 0 <= i < k ==> WholeAt(start, attempts, i, good)
  }

  predicate AllEndure(start: Files, attempts: seq<Attempt>, k: nat)
    requires k <= |attempts|
  {
    forall i :: 0 <= i < k ==> EnduresAt(start, attempts, i)
  }

  lemma WholeNext(start: Files, attempts: seq<Attempt>, i: nat, good: set<Content>)
    requires Sound(start, good) && i < |attempts|
    requires forall j :: 0 <= j < |attempts| ==> OnlyCutOff(attempts[j], good)
    requires Recoverable(After(start, attempts[..i]), good)
    ensures WholeAt(start, attempts, i, good) <==> EnduresAt(start, attempts, i)
    ensures WholeAt(start, attempts, i, good) ==> Recoverable(After(start, attempts[..i + 1]), good)
  {
    SoundAfterAnyAttempts(start, attempts[..i], good);
    WholeDuringIff(After(start, attempts[..i]), attempts[i], good);
    assert attempts[..i + 1][..i] == attempts[..i];
    if WholeAt(start, attempts, i, good) {
      WholeAtTheEnds(After(start, attempts[..i]), attempts[i], good);
    }
  }

  /**
   Restores that are only cut off, however often: during the first `k` a whole database is there throughout
   exactly when every one of them finds path or path.old, or is cut off before it clears path.new.
   */
  lemma {:induction false} CutOffRunsAreSafeIff(start: Files, attempts: seq<Attempt>, k: nat, good: set<Content>)
    requires Sound(start, good) && Recoverable(start, good) && k <= |attempts|
    requires forall j :: 0 <= j < |attempts| ==> OnlyCutOff(attempts[j], good)
    ensures AllWhole(start, attempts, k, good) <==> AllEndure(start, attempts, k)
    ensures AllWhole(start, attempts, k, good) ==> Recoverable(After(start, attempts[..k]), good)
  {
    if k > 0 {
      CutOffRunsAreSafeIff(start, attempts, k - 1, good);
      if Recoverable(After(start, attempts[..k - 1]), good) {
        WholeNext(start, attempts, k - 1, good);
      }
    }
  }

  // ----- Three interruptions lose the database -----

  lemma NineCalls(start: Files, b: byte)
    ensures Exec(start, [b], NoFaults(), 9) == State((start - {Wal} - {Shm} - {New})[New := [b]] - {Old}, StatLive, [b])
  {
    var f, src := NoFaults(), [b];
    var s := start - {Wal} - {Shm} - {New};
    EarlySteps(start, src, NoFaults());
    assert Exec(start, src, f, 4) == State(s, CreateNew, src);
    assert Exec(start, src, f, 5) == State(s[New := []], Copying(0), src);
    assert src[..1] == src && s[New := []][New := src] == s[New := src];
    assert Exec(start, src, f, 6) == State(s[New := src], Copying(1), src);
    assert Exec(start, src, f, 7) == State(s[New := src], CloseNew, src);
    assert Exec(start, src, f, 8) == State(s[New := src], ClearOld, src);
  }

  lemma ElevenCalls(was: byte, b: byte)
    ensures Exec(map[Live := [was]], [b], NoFaults(), 11).files == map[Old := [was], New := [b]]
  {
    var start: Files := map[Live := [was]];
    var f, s := NoFaults(), map[Live := [was], New := [b]];
    NineCalls(start, b);
    assert (start - {Wal} - {Shm} - {New})[New := [b]] - {Old} == s;
    assert Exec(start, [b], f, 10) == State(s, Retire, [b]);
  }

  /**
   No call fails, but three restores in a row are cut off: after retiring the live file, after
   clearing path.old, and after clearing path.new.  Nothing is left of either database.
   */
  lemma ThreeInterruptionsLoseTheDatabase(was: byte, b: byte)
    ensures var a := (calls: nat) => Attempt([b], NoFaults(), calls);
            After(map[Live := [was]], [a(11), a(9), a(3)]) == map[]
  {
    var a := (calls: nat) => Attempt([b], NoFaults(), calls);
    var start: Files := map[Live := [was]];
    var s1: Files := map[Old := [was], New := [b]];
    var s2: Files := map[New := [b]];
    ElevenCalls(was, b);
    NineCalls(s1, b);
    assert (s1 - {Wal} - {Shm} - {New})[New := [b]] - {Old} == s2;
    EarlySteps(s2, [b], NoFaults());
    assert s2 - {Wal} - {Shm} - {New} == map[];
    assert [a(11), a(9), a(3)][..2] == [a(11), a(9)] && [a(11), a(9)][..1] == [a(11)] && [a(11)][..0] == [];
    assert After(start, [a(11)]) == s1;
    assert After(start, [a(11), a(9)]) == s2;
  }

  // ----- How a run ends -----

  /** A finished run that reports success has the snapshot in place and nothing else of the old files. */
  lemma SuccessPublishesTheSnapshot(start: Files, src: Content, f: Oracle, n: nat)
    requires Exec(start, src, f, n).pc == Done(true)
    ensures Holds(Exec(start, src, f, n).files, Live, src)
    ensures Old in Exec(start, src, f, n).files ==> f(DropOld)
  {
    var s := Exec(start, src, f, n);
    ExecDescribed(start, src, f, n, s);
    assert Live in Kept(s.files);
    assert Old in s.files ==> Old in Kept(s.files);
  }

  /** The old database is at path, or at path.old when the rollback rename failed. */
  predicate KeepsOld(start: Files, f: Oracle, fs: Files)
    requires Live in start
  {
    Holds(fs, Live, start[Live]) || (f(RollBack) && Holds(fs, Old, start[Live]))
  }

  /**
   Clearing path.old and looking at path both fail, so that the old database is taken for absent; when
   publishing fails too, the rollback renames the stale path.old over it.
   */
  predicate Overwrites(start: Files, src: Content, f: Oracle) {
    && Copies(src, f) && f(ClearOld) && f(StatLive) && f(Publish) && !f(RollBack)
    && Live in start && Old in start && start[Old] != start[Live]
  }

  /** A finished run that reports failure keeps the old database exactly when it does not roll back a stale one. */
  lemma FailureKeepsTheOldDatabaseIff(start: Files, src: Content, f: Oracle, n: nat)
    requires Exec(start, src, f, n).pc == Done(false) && Live in start
    ensures KeepsOld(start, f, Exec(start, src, f, n).files) <==> !Overwrites(start, src, f)
    ensures Overwrites(start, src, f) ==> Holds(Exec(start, src, f, n).files, Live, start[Old])
  {
    var s := Exec(start, src, f, n);
    ExecDescribed(start, src, f, n, s);
    var fs := s.files;
    assert (Live in Kept(fs) <==> Live in fs) && (Old in Kept(fs) <==> Old in fs);
    assert Live in fs ==> Kept(fs)[Live] == fs[Live];
    assert Old in fs ==> Kept(fs)[Old] == fs[Old];
    assert Live in Kept(start) && Kept(start)[Live] == start[Live];
    assert (Old in Kept(start) <==> Old in start) && (Old in start ==> Kept(start)[Old] == start[Old]);
  }

  // ----- The path itself -----

  /** The live file is moved aside. */
  predicate MovesAside(src: Content, f: Oracle) {
    Copies(src, f) && !f(StatLive) && !f(Retire)
  }

  lemma DescribedPath(start: Files, f: Oracle, s: State)
    requires Described(start, f, s) && Live in start && !MovesAside(s.src, f)
    ensures Live in s.files
  {
    assert Live in Kept(s.files) <==> Live in s.files;
    assert Live in Kept(start);
  }

  lemma OpensSource(start: Files, src: Content, f: Oracle)
    ensures Exec(start, src, f, 3).pc == OpenSource && Exec(start, src, f, 3).src == src
  {
    assert Exec(start, src, f, 0).pc == RemoveWal;
    assert Exec(start, src, f, 1).pc == RemoveShm;
    assert Exec(start, src, f, 2).pc == ClearNew;
  }

  lemma {:induction false} CopyingReaches(start: Files, src: Content, f: Oracle, k: nat)
    requires Copies(src, f) && k <= |src|
    ensures Exec(start, src, f, k + 5).pc == Copying(k) && Exec(start, src, f, k + 5).src == src
    decreases k
  {
    if k == 0 {
      OpensSource(start, src, f);
      assert Exec(start, src, f, 4).pc == CreateNew && Exec(start, src, f, 4).src == src;
    } else {
      CopyingReaches(start, src, f, k - 1);
    }
  }

  lemma FinishesCopying(start: Files, src: Content, f: Oracle, n: nat)
    requires Copies(src, f) && Exec(start, src, f, n).pc == Copying(|src|) && Exec(start, src, f, n).src == src
    ensures Exec(start, src, f, n + 3).pc == StatLive
  {
    assert Exec(start, src, f, n + 1).pc == CloseNew;
    assert Exec(start, src, f, n + 2).pc == ClearOld;
  }

  lemma ReachesStat(start: Files, src: Content, f: Oracle)
    requires Copies(src, f)
    ensures Exec(start, src, f, |src| + 8).pc == StatLive
  {
    CopyingReaches(start, src, f, |src|);
    FinishesCopying(start, src, f, |src| + 5);
  }

  lemma PathIsGone(start: Files, src: Content, f: Oracle)
    requires Live in start && MovesAside(src, f)
    ensures Live !in Exec(start, src, f, |src| + 10).files
  {
    var n := |src| + 8;
    ReachesStat(start, src, f);
    ExecDescribed(start, src, f, n, Exec(start, src, f, n));
    assert Live in Kept(Exec(start, src, f, n).files);
    assert Exec(start, src, f, n + 1).pc == Retire && Live in Exec(start, src, f, n + 1).files;
  }

  /**
   Replacing a database leaves one at path after every call exactly when the run never moves the live
   file aside; a run in which no call fails always does.
   */
  lemma PathStaysIffNotMovedAside(start: Files, src: Content, f: Oracle)
    requires Live in start
    ensures (forall n: nat :: Live in Exec(start, src, f, n).files) <==> !MovesAside(src, f)
  {
    if MovesAside(src, f) {
      PathIsGone(start, src, f);
    } else {
      forall n: nat
        ensures Live in Exec(start, src, f, n).files
      {
        ExecDescribed(start, src, f, n, Exec(start, src, f, n));
        DescribedPath(start, f, Exec(start, src, f, n));
      }
    }
  }

  // ----- A rollback to a stale backup -----

  /** Every run in which these calls fail ends with the stale path.old at path, and nothing at path.old. */
  lemma {:induction false} StaleBackupReplacesTheDatabase(start: Files, src: Content, f: Oracle)
    requires Overwrites(start, src, f)
    ensures var s := Exec(start, src, f, |src| + 12);
            s.pc == Done(false) && Holds(s.files, Live, start[Old]) && Old !in s.files
  {
    var n := |src| + 12;
    ReachesStat(start, src, f);
    assert Exec(start, src, f, |src| + 9).pc == Publish;
    assert Exec(start, src, f, |src| + 10).pc == RollBack;
    assert Exec(start, src, f, |src| + 11).pc == DropUnpublished;
    FailureKeepsTheOldDatabaseIff(start, src, f, n);
    ExecDescribed(start, src, f, n, Exec(start, src, f, n));
    assert Old in Exec(start, src, f, n).files <==> Old in Kept(Exec(start, src, f, n).files);
  }

  /** The calls that fail in `TheStaleBackup`. */
  function BlindRollback(): Oracle {
    (pc: Pc) => pc == ClearOld || pc == StatLive || pc == Publish
  }

  /** Three calls fail, the rollback works, and the current database is gone. */
  lemma {:induction false} TheStaleBackup(was: Content, stale: Content, src: Content)
    requires was != stale
    ensures var s := Exec(map[Live := was, Old := stale], src, BlindRollback(), |src| + 12);
            s.pc == Done(false) && Holds(s.files, Live, stale) && Old !in s.files
  {
    StaleBackupReplacesTheDatabase(map[Live := was, Old := stale], src, BlindRollback());
  }

  // ----- Sidecars -----

  /** A stale write-ahead log survives only when removing it failed. */
  predicate SidecarsGone(start: Files, f: Oracle, s: State) {
    && (s.pc != RemoveWal ==> (Wal in s.files ==> Wal in start && f(RemoveWal)))
    && (s.pc != RemoveWal && s.pc != RemoveShm ==> (Shm in s.files ==> Shm in start && f(RemoveShm)))
    && (s.pc == RemoveWal ==> s.files == start)
    && (s.pc == RemoveShm ==> (Shm in s.files ==> Shm in start))
  }

  lemma StepKeepsSidecarsGone(start: Files, f: Oracle, s: State)
    requires SidecarsGone(start, f, s)
    ensures SidecarsGone(start, f, Step(s, f))
  {
  }

  lemma {:induction false} NoStaleSidecars(start: Files, src: Content, f: Oracle, n: nat, s: State)
    requires s == Exec(start, src, f, n)
    ensures SidecarsGone(start, f, s)
    decreases n
  {
    if n > 0 {
      var before := Exec(start, src, f, n - 1);
      NoStaleSidecars(start, src, f, n - 1, before);
      StepKeepsSidecarsGone(start, f, before);
    }
  }

  // ----- The code -----

  /** The directory of the database; every call takes whether it fails. */
  class Dir {
    var files: Files

    constructor (files: Files)
      ensures this.files == files
    {
      this.files := files;
    }

    method Delete(n: Name, fails: bool)
      modifies this
      ensures files == Remove(old(files), n, fails)
    {
      if !fails {
        files := files - {n};
      }
    }

    method Move(from: Name, to: Name, fails: bool) returns (ok: bool)
      modifies this
      ensures ok == Renames(old(files), from, fails)
      ensures files == Rename(old(files), from, to, fails)
    {
      ok := !fails && from in files;
      if ok {
        var c := files[from];
        files := (files - {from})[to := c];
      }
    }

    method Write(n: Name, c: Content)
      modifies this
      ensures files == old(files)[n := c]
    {
      files := files[n := c];
    }
  }

  /** The states of a run so far, each the machine's step from the one before. */
  ghost predicate IsRun(run: seq<State>, f: Oracle) {
    run != [] && forall i :: 0 < i < |run| ==> Follows(run, i, f)
  }

  ghost predicate Follows(run: seq<State>, i: nat, f: Oracle)
    requires 0 < i < |run|
  {
    run[i] == Step(run[i - 1], f)
  }

  ghost predicate At(run: seq<State>, f: Oracle, first: State, fs: Files, pc: Pc) {
    IsRun(run, f) && run[0] == first && run[|run| - 1] == State(fs, pc, first.src)
  }

  lemma Next(run: seq<State>, f: Oracle, first: State, fs: Files, pc: Pc) returns (more: seq<State>)
    requires At(run, f, first, fs, pc)
    ensures var s := Step(State(fs, pc, first.src), f); At(more, f, first, s.files, s.pc)
  {
    var s := Step(State(fs, pc, first.src), f);
    more := run + [s];
    forall i | 0 < i < |more|
      ensures Follows(more, i, f)
    {
      assert i < |run| ==> Follows(run, i, f);
    }
  }

  lemma {:induction false} RunIsExec(run: seq<State>, f: Oracle, start: Files, src: Content, n: nat)
    requires IsRun(run, f) && run[0] == State(start, RemoveWal, src) && n < |run|
    ensures run[n] == Exec(start, src, f, n)
    decreases n
  {
    if n > 0 {
      RunIsExec(run, f, start, src, n - 1);
      assert Follows(run, n, f);
    }
  }

  /** Copy `src` to path.new, creating it. */
  method CopyFile(d: Dir, src: Content, f: Oracle, ghost run: seq<State>, ghost first: State)
    returns (ok: bool, ghost more: seq<State>)
    requires first.src == src && At(run, f, first, d.files, OpenSource)
    modifies d
    ensures At(more, f, first, d.files, if ok then ClearOld else Done(false))
  {
    more := Next(run, f, first, d.files, OpenSource);
    if f(OpenSource) {
      return false, more;
    }
    more := Next(more, f, first, d.files, CreateNew);
    if f(CreateNew) {
      return false, more;
    }
    d.Write(New, []);
    var k := 0;
    while k < |src| && !f(Copying(k))
      invariant k <= |src|
      invariant At(more, f, first, d.files, Copying(k))
    {
      more := Next(more, f, first, d.files, Copying(k));
      d.Write(New, src[..k + 1]);
      k := k + 1;
    }
    more := Next(more, f, first, d.files, Copying(k));
    if f(Copying(k)) {
      return false, more;
    }
    more := Next(more, f, first, d.files, CloseNew);
    return !f(CloseNew), more;
  }

  /** Clear path.old and move the live file there. */
  method RetireLive(d: Dir, f: Oracle, ghost run: seq<State>, ghost first: State)
    returns (ok: bool, ghost more: seq<State>)
    requires At(run, f, first, d.files, ClearOld)
    modifies d
    ensures At(more, f, first, d.files, if ok then Publish else Done(false))
  {
    ok := true;
    more := Next(run, f, first, d.files, ClearOld);
    d.Delete(Old, f(ClearOld));
    more := Next(more, f, first, d.files, StatLive);
    if Live in d.files && !f(StatLive) {
      more := Next(more, f, first, d.files, Retire);
      ok := d.Move(Live, Old, f(Retire));
      if !ok {
        more := Next(more, f, first, d.files, DropUnused);
        d.Delete(New, f(DropUnused));
      }
    }
  }

  /** Move the copy into place, or undo. */
  method PublishNew(d: Dir, f: Oracle, ghost run: seq<State>, ghost first: State)
    returns (ok: bool, ghost more: seq<State>)
    requires At(run, f, first, d.files, Publish)
    modifies d
    ensures At(more, f, first, d.files, Done(ok))
  {
    more := Next(run, f, first, d.files, Publish);
    ok := d.Move(New, Live, f(Publish));
    if !ok {
      more := Next(more, f, first, d.files, RollBack);
      var rolled := d.Move(Old, Live, f(RollBack));
      more := Next(more, f, first, d.files, DropUnpublished);
      d.Delete(New, f(DropUnpublished));
      return;
    }
    more := Next(more, f, first, d.files, DropOld);
    d.Delete(Old, f(DropOld));
  }

  /** The calls made are those of the machine, to its end. */
  method ReplaceDatabase(d: Dir, src: Content, f: Oracle) returns (ok: bool, ghost run: seq<State>)
    modifies d
    ensures At(run, f, State(old(d.files), RemoveWal, src), d.files, Done(ok))
  {
    ghost var first := State(d.files, RemoveWal, src);
    run := Next([first], f, first, d.files, RemoveWal);
    d.Delete(Wal, f(RemoveWal));
    run := Next(run, f, first, d.files, RemoveShm);
    d.Delete(Shm, f(RemoveShm));
    run := Next(run, f, first, d.files, ClearNew);
    d.Delete(New, f(ClearNew));
    ok, run := CopyFile(d, src, f, run, first);
    if ok {
      ok, run := RetireLive(d, f, run, first);
    }
    if ok {
      ok, run := PublishNew(d, f, run, first);
    }
  }

  /** swapDB as its caller sees it: what a finished run reports is true of the files. */
  method Swap(d: Dir, src: Content, f: Oracle) returns (ok: bool)
    modifies d
    ensures ok ==> Holds(d.files, Live, src)
    ensures !ok && Live in old(d.files) ==>
              (KeepsOld(old(d.files), f, d.files) <==> !Overwrites(old(d.files), src, f))
  {
    ghost var start, run := d.files, [];
    ok, run := ReplaceDatabase(d, src, f);
    ghost var n := |run| - 1;
    RunIsExec(run, f, start, src, n);
    if ok {
      SuccessPublishesTheSnapshot(start, src, f, n);
    } else if Live in start {
      FailureKeepsTheOldDatabaseIff(start, src, f, n);
    }
  }
}
