/**
 Reading credentials through a process-wide environment variable. Any number of callers run
 fetchCredentialsIniFromSecret at once, one atomic step at a time in any order: each writes its secret to
 a temporary file, and under one lock points the variable at it, resolves the profile and clears the
 variable; the deferred calls run in reverse order.
 */
module Credentials {
  import opened Wrappers

  /** Where a caller is: named after what it has done last. */
  datatype PC =
    | Started | FileCreated | Wrote | LockHeld | EnvSet | Resolved | EnvUnset | Unlocked | Closed | Finished

  /** A caller: its secret (None without the key), its file, and what the profile provider read for it. */
  datatype Caller = Caller(secret: Option<string>, pc: PC, file: string, wrote: bool, read: Option<string>)

  datatype State = State(callers: map<nat, Caller>, env: Option<string>, lock: Option<nat>, files: map<string, string>)

  function Initial(): State { State(map[], None, None, map[]) }

  /** What the profile provider reads: the file that the variable names. */
  function ReadProfile(s: State): Option<string> {
    if s.env.Some? && s.env.value in s.files then Some(s.files[s.env.value]) else None
  }

  function Moved(s: State, c: nat, next: Caller): State { s.(callers := s.callers[c := next]) }

  /** A new call comes in. */
  predicate Arrives(s: State, after: State, c: nat) {
    && c !in s.callers && c in after.callers
    && after == Moved(s, c, Caller(after.callers[c].secret, Started, "", false, None))
  }

  /** One step of caller c, along the function's statements and then its deferred calls. */
  predicate Moves(s: State, after: State, c: nat) {
    && c in s.callers && c in after.callers
    && var me := s.callers[c];
       match me.pc
       case Started =>
         // no key in the secret, or no temporary file
         || after == Moved(s, c, me.(pc := Finished))
         // a temporary file gets a name that no file has
         || (me.secret.Some? && after.callers[c].file !in s.files
             && after == Moved(s, c, me.(pc := FileCreated, file := after.callers[c].file))
                         .(files := s.files[after.callers[c].file := ""]))
       case FileCreated =>
         // the write fails, having written anything, and the deferred close and remove follow
         || (after.callers[c].file == me.file && me.file in after.files
             && after == Moved(s, c, me.(pc := Unlocked)).(files := s.files[me.file := after.files[me.file]]))
         || (me.secret.Some?
             && after == Moved(s, c, me.(pc := Wrote, wrote := true)).(files := s.files[me.file := me.secret.value]))
       case Wrote => s.lock.None? && after == Moved(s, c, me.(pc := LockHeld)).(lock := Some(c))
       case LockHeld => after == Moved(s, c, me.(pc := EnvSet)).(env := Some(me.file))
       case EnvSet => after == Moved(s, c, me.(pc := Resolved, read := ReadProfile(s)))
       case Resolved => after == Moved(s, c, me.(pc := EnvUnset)).(env := None)
       case EnvUnset => after == Moved(s, c, me.(pc := Unlocked)).(lock := None)
       case Unlocked => after == Moved(s, c, me.(pc := Closed))
       case Closed => after == Moved(s, c, me.(pc := Finished)).(files := s.files - {me.file})
       case Finished => false
  }

  ghost predicate Next(s: State, after: State) {
    exists c: nat :: Arrives(s, after, c) || Moves(s, after, c)
  }

  ghost predicate Behaviour(run: seq<State>) {
    && run != [] && run[0] == Initial()
    && forall i :: 0 <= i < |run| - 1 ==> Next(run[i], run[i + 1])
  }

  // --- The invariant ---

  predicate InCriticalSection(pc: PC) {
    pc == LockHeld || pc == EnvSet || pc == Resolved || pc == EnvUnset
  }

  /** The caller's file exists. */
  predicate OwnsFile(pc: PC) {
    pc != Started && pc != Finished
  }

  predicate FileOk(s: State, c: nat)
    requires c in s.callers
  {
    var me := s.callers[c];
    && (OwnsFile(me.pc) ==> me.file in s.files)
    && (OwnsFile(me.pc) && me.wrote ==> me.secret == Some(s.files[me.file]))
    && (me.pc == Wrote || InCriticalSection(me.pc) ==> me.wrote)
    && (me.pc == Started || me.pc == FileCreated ==> !me.wrote)
  }

  predicate ReadOk(me: Caller) {
    me.read.Some? ==> me.read == me.secret
  }

  /** The lock is held by the one caller in the critical section; the variable is set only while that caller uses it. */
  ghost predicate LockOk(s: State) {
    && (forall c :: c in s.callers ==> (InCriticalSection(s.callers[c].pc) <==> s.lock == Some(c)))
    && (s.lock.Some? ==> s.lock.value in s.callers)
    && (s.env ==
        if s.lock.Some? && (s.callers[s.lock.value].pc == EnvSet || s.callers[s.lock.value].pc == Resolved)
        then Some(s.callers[s.lock.value].file) else None)
  }

  predicate Owner(s: State, c: nat, f: string) {
    c in s.callers && OwnsFile(s.callers[c].pc) && s.callers[c].file == f
  }

  /** Every file has exactly one owner, and an owner that has written finds its secret in it. */
  ghost predicate FilesOk(s: State) {
    && (forall c :: c in s.callers ==> FileOk(s, c))
    && (forall c, d, f :: Owner(s, c, f) && Owner(s, d, f) ==> c == d)
    && (forall f :: f in s.files ==> exists c :: Owner(s, c, f))
  }

  ghost predicate ReadsOk(s: State) {
    && (forall c :: c in s.callers ==> ReadOk(s.callers[c]))
    && (forall c :: c in s.callers && HasResolved(s.callers[c]) ==> s.callers[c].read.Some?)
  }

  /** The caller wrote its file and is past resolving the profile. */
  predicate HasResolved(me: Caller) {
    me.wrote && (me.pc == Resolved || me.pc == EnvUnset || me.pc == Unlocked || me.pc == Closed || me.pc == Finished)
  }

  ghost predicate Inv(s: State) { LockOk(s) && FilesOk(s) && ReadsOk(s) }

  lemma OthersStay(s: State, after: State, c: nat)
    requires Arrives(s, after, c) || Moves(s, after, c)
    ensures c in after.callers
    ensures forall d :: d != c ==> (d in s.callers <==> d in after.callers)
    ensures forall d :: d != c && d in s.callers ==> after.callers[d] == s.callers[d]
  {
  }

  /** What a step does to the lock and the variable. */
  lemma LockEffect(s: State, after: State, c: nat)
    requires Arrives(s, after, c) || Moves(s, after, c)
    ensures var inside := c in s.callers && InCriticalSection(s.callers[c].pc);
            var insideAfter := InCriticalSection(after.callers[c].pc);
            && c in after.callers
            && (inside == insideAfter ==> after.lock == s.lock)
            && (!inside && insideAfter ==> s.lock.None? && after.lock == Some(c) && after.callers[c].pc == LockHeld)
            && (inside && !insideAfter ==> after.lock.None? && s.callers[c].pc == EnvUnset)
            && (!(inside && insideAfter) ==> after.env == s.env)
            && (inside && insideAfter ==> s.callers[c].file == after.callers[c].file)
            && (inside && insideAfter && after.callers[c].pc == EnvSet ==> after.env == Some(after.callers[c].file))
            && (inside && insideAfter && after.callers[c].pc == Resolved ==> after.env == s.env)
            && (inside && insideAfter && after.callers[c].pc == EnvUnset ==> after.env == None)
            && (inside && insideAfter ==> after.callers[c].pc != LockHeld)
            && (inside && insideAfter && after.callers[c].pc == Resolved ==> s.callers[c].pc == EnvSet)
  {
  }

  lemma MoveKeepsLock(s: State, after: State, c: nat)
    requires LockOk(s) && (Arrives(s, after, c) || Moves(s, after, c))
    ensures LockOk(after)
  {
    hide Arrives, Moves;
    OthersStay(s, after, c);
    LockEffect(s, after, c);
  }

  /** What a step does to the files. */
  ghost predicate FileEffect(s: State, after: State, c: nat) {
    var owns := c in s.callers && OwnsFile(s.callers[c].pc);
    && c in after.callers
    && var ownsAfter := OwnsFile(after.callers[c].pc);
       && (owns && ownsAfter ==>
             after.callers[c].file == s.callers[c].file && after.callers[c].file in after.files
             && forall f :: f != after.callers[c].file ==>
                  (f in after.files <==> f in s.files) && (f in s.files ==> after.files[f] == s.files[f]))
       && (!owns && ownsAfter ==>
             after.callers[c].file !in s.files && after.files == s.files[after.callers[c].file := ""])
       && (owns && !ownsAfter ==> after.files == s.files - {s.callers[c].file})
       && (!owns && !ownsAfter ==> after.files == s.files)
  }

  lemma FilesMove(s: State, after: State, c: nat)
    requires Arrives(s, after, c) || (Moves(s, after, c) && FileOk(s, c))
    ensures FileEffect(s, after, c) && FileOk(after, c)
  {
  }

  lemma OwnersMove(s: State, after: State, c: nat)
    requires FilesOk(s) && (Arrives(s, after, c) || Moves(s, after, c))
    ensures FileEffect(s, after, c) && FileOk(after, c)
    ensures forall d, f :: Owner(s, d, f) ==> f in s.files
    ensures forall d, f :: d != c ==> (Owner(after, d, f) <==> Owner(s, d, f))
    ensures forall d :: d != c ==> (d in s.callers <==> d in after.callers)
    ensures forall d :: d != c && d in s.callers ==> after.callers[d] == s.callers[d]
  {
    assert c in s.callers ==> FileOk(s, c);
    FilesMove(s, after, c);
    OthersStay(s, after, c);
    hide Arrives, Moves, FileEffect;
    assert forall d, f :: Owner(s, d, f) ==> FileOk(s, d);
  }

  /** A step touches no file of another caller. */
  lemma OtherFilesStay(s: State, after: State, c: nat, d: nat)
    requires FilesOk(s) && FileEffect(s, after, c)
    requires c != d && d in s.callers && d in after.callers && after.callers[d] == s.callers[d]
    ensures FileOk(after, d)
  {
    assert FileOk(s, d);
    if OwnsFile(s.callers[d].pc) {
      assert Owner(s, d, s.callers[d].file);
      assert c in s.callers && OwnsFile(s.callers[c].pc) ==> Owner(s, c, s.callers[c].file);
    }
  }

  lemma FilesStayOwned(s: State, after: State, c: nat, f: string)
    requires FilesOk(s) && FileEffect(s, after, c) && f in after.files
    requires forall d, g :: d != c ==> (Owner(after, d, g) <==> Owner(s, d, g))
    ensures exists d :: Owner(after, d, f)
  {
    if f in s.files {
      var d :| Owner(s, d, f);
      assert Owner(after, d, f);
    } else {
      assert Owner(after, c, f);
    }
  }

  lemma MoveKeepsFiles(s: State, after: State, c: nat)
    requires FilesOk(s) && (Arrives(s, after, c) || Moves(s, after, c))
    ensures FilesOk(after)
  {
    OwnersMove(s, after, c);
    hide Arrives, Moves, FileOk;
    forall d | d in after.callers && d != c
      ensures FileOk(after, d)
    {
      OtherFilesStay(s, after, c, d);
    }
    forall f | f in after.files
      ensures exists d :: Owner(after, d, f)
    {
      FilesStayOwned(s, after, c, f);
    }
  }

  /** What a step does to what the caller has read. */
  lemma ReadEffect(s: State, after: State, c: nat)
    requires Arrives(s, after, c) || Moves(s, after, c)
    requires c in s.callers ==> FileOk(s, c)
    ensures c in after.callers
    ensures c in s.callers && s.callers[c].pc == EnvSet ==>
              after.callers[c] == s.callers[c].(pc := Resolved, read := ReadProfile(s))
    ensures c in s.callers && s.callers[c].pc != EnvSet ==>
              after.callers[c].read == s.callers[c].read && after.callers[c].secret == s.callers[c].secret
              && after.callers[c].pc != Resolved
              && (HasResolved(after.callers[c]) ==> HasResolved(s.callers[c]))
    ensures c !in s.callers ==> after.callers[c].read.None? && after.callers[c].pc == Started
  {
  }

  /** Resolving the profile reads the caller's own secret. */
  lemma OwnSecretIsRead(s: State, c: nat)
    requires LockOk(s) && FilesOk(s) && c in s.callers && s.callers[c].pc == EnvSet
    ensures ReadProfile(s).Some? && ReadProfile(s) == s.callers[c].secret
  {
    assert FileOk(s, c);
    hide LockOk, FilesOk, FileOk;
    EnvIsOwnFile(s, c);
  }

  lemma EnvIsOwnFile(s: State, c: nat)
    requires LockOk(s) && FilesOk(s) && c in s.callers && s.callers[c].pc == EnvSet
    ensures s.env == Some(s.callers[c].file) && s.callers[c].file in s.files
    ensures s.callers[c].secret == Some(s.files[s.callers[c].file])
  {
    assert FileOk(s, c);
  }

  lemma MoveKeepsReads(s: State, after: State, c: nat)
    requires LockOk(s) && FilesOk(s) && ReadsOk(s) && (Arrives(s, after, c) || Moves(s, after, c))
    ensures ReadsOk(after)
  {
    assert c in s.callers ==> FileOk(s, c);
    OthersStay(s, after, c);
    ReadEffect(s, after, c);
    hide Arrives, Moves, FileOk, LockOk, FilesOk, ReadProfile;
    if c in s.callers {
      assert ReadOk(s.callers[c]);
      if s.callers[c].pc == EnvSet {
        OwnSecretIsRead(s, c);
      }
    }
  }

  lemma InitialIsFine()
    ensures Inv(Initial())
  {
  }

  lemma {:induction false} InvAlways(run: seq<State>, i: nat)
    requires Behaviour(run) && i < |run|
    ensures Inv(run[i])
  {
    hide LockOk, FilesOk, ReadsOk, Moves, Arrives;
    if i == 0 {
      InitialIsFine();
    } else {
      InvAlways(run, i - 1);
      assert Next(run[i - 1], run[i - 1 + 1]);
      var c: nat :| Arrives(run[i - 1], run[i], c) || Moves(run[i - 1], run[i], c);
      MoveKeepsLock(run[i - 1], run[i], c);
      MoveKeepsFiles(run[i - 1], run[i], c);
      MoveKeepsReads(run[i - 1], run[i], c);
    }
  }

  /**
   Credentials are isolated under any interleaving of any number of callers. At every moment: a caller
   about to resolve the profile finds the variable naming its own file, which exists and holds its own
   secret; whatever a caller has read is its own secret, and past that point it has read it; at most one caller is between locking and
   unlocking; the variable is unset whenever the lock is free; and the temporary files left are exactly
   those of callers that have not finished.
   */
  lemma CredentialsAreIsolated(run: seq<State>, i: nat)
    requires Behaviour(run) && i < |run|
    ensures var s := run[i];
            && (forall c :: c in s.callers && s.callers[c].pc == EnvSet ==>
                  s.env == Some(s.callers[c].file) && s.callers[c].file in s.files
                  && s.callers[c].secret == Some(s.files[s.callers[c].file]) == ReadProfile(s))
            && (forall c :: c in s.callers && s.callers[c].read.Some? ==> s.callers[c].read == s.callers[c].secret)
            && (forall c :: c in s.callers && HasResolved(s.callers[c]) ==>
                  s.callers[c].read.Some? && s.callers[c].read == s.callers[c].secret)
            && (forall c, d ::
                  c in s.callers && d in s.callers && InCriticalSection(s.callers[c].pc) && InCriticalSection(s.callers[d].pc)
                  ==> c == d)
            && (s.lock.None? ==> s.env.None?)
            && (forall f :: f in s.files <==> exists c :: Owner(s, c, f))
  {
    hide Moves, Arrives;
    InvAlways(run, i);
    var s := run[i];
    forall c | c in s.callers
      ensures FileOk(s, c) && (OwnsFile(s.callers[c].pc) ==> Owner(s, c, s.callers[c].file))
    {
    }
  }

  // --- Progress ---

  /** How many steps a caller has at most still to take. */
  function StepsLeft(pc: PC): nat {
    match pc
    case Started => 9
    case FileCreated => 8
    case Wrote => 7
    case LockHeld => 6
    case EnvSet => 5
    case Resolved => 4
    case EnvUnset => 3
    case Unlocked => 2
    case Closed => 1
    case Finished => 0
  }

  /** A step of a caller brings it nearer to its end, and no one else further away. */
  lemma MovesAdvance(s: State, after: State, c: nat)
    requires Moves(s, after, c)
    ensures StepsLeft(after.callers[c].pc) < StepsLeft(s.callers[c].pc)
    ensures forall d :: d in s.callers && d != c ==> d in after.callers && after.callers[d] == s.callers[d]
  {
  }

  /** A caller that waits for no lock can take its next step, and as it should: resolving, unsetting, unlocking. */
  lemma CanMove(s: State, c: nat) returns (after: State)
    requires c in s.callers && s.callers[c].pc != Finished && (s.callers[c].pc == Wrote ==> s.lock.None?)
    requires OwnsFile(s.callers[c].pc) ==> s.callers[c].file in s.files
    ensures Moves(s, after, c)
  {
    var me := s.callers[c];
    match me.pc {
      case Started => after := Moved(s, c, me.(pc := Finished));
      case FileCreated => after := Moved(s, c, me.(pc := Unlocked)).(files := s.files[me.file := ""]);
      case Wrote => after := Moved(s, c, me.(pc := LockHeld)).(lock := Some(c));
      case LockHeld => after := Moved(s, c, me.(pc := EnvSet)).(env := Some(me.file));
      case EnvSet => after := Moved(s, c, me.(pc := Resolved, read := ReadProfile(s)));
      case Resolved => after := Moved(s, c, me.(pc := EnvUnset)).(env := None);
      case EnvUnset => after := Moved(s, c, me.(pc := Unlocked)).(lock := None);
      case Unlocked => after := Moved(s, c, me.(pc := Closed));
      case Closed => after := Moved(s, c, me.(pc := Finished)).(files := s.files - {me.file});
    }
  }

  /**
   No deadlock: at every moment of every run, a caller that has not finished can take a step, or it waits
   for the lock while the caller that holds it can.
   */
  lemma NeverStuck(run: seq<State>, i: nat, c: nat) returns (d: nat, after: State)
    requires Behaviour(run) && i < |run| && c in run[i].callers && run[i].callers[c].pc != Finished
    ensures Moves(run[i], after, d)
    ensures d == c || (run[i].callers[c].pc == Wrote && run[i].lock == Some(d) && d in run[i].callers
                       && InCriticalSection(run[i].callers[d].pc))
  {
    hide Moves, Arrives, Behaviour, ReadsOk;
    InvAlways(run, i);
    var s := run[i];
    d := if s.callers[c].pc == Wrote && s.lock.Some? then s.lock.value else c;
    assert FileOk(s, d);
    after := CanMove(s, d);
  }

  /** The state in which caller c, and no one else, uses the variable. */
  function InUse(s: State, c: nat, file: string): State
    requires c in s.callers && s.callers[c].secret.Some?
  {
    State(s.callers[c := s.callers[c].(pc := EnvSet, file := file, wrote := true)], Some(file), Some(c),
          s.files[file := s.callers[c].secret.value])
  }

  lemma FetchUntilUse(s: State, c: nat, file: string) returns (path: seq<State>)
    requires c in s.callers && s.lock.None? && file !in s.files
    requires s.callers[c].pc == Started && s.callers[c].secret.Some?
    ensures |path| == 5 && path[0] == s && path[4] == InUse(s, c, file)
    ensures forall i :: 0 <= i < 4 ==> Moves(path[i], path[i + 1], c)
  {
    var me := s.callers[c];
    var created := me.(pc := FileCreated, file := file);
    var wrote := created.(pc := Wrote, wrote := true);
    var s1 := Moved(s, c, created).(files := s.files[file := ""]);
    var s2 := Moved(s1, c, wrote).(files := s1.files[file := me.secret.value]);
    var s3 := Moved(s2, c, wrote.(pc := LockHeld)).(lock := Some(c));
    var s4 := Moved(s3, c, wrote.(pc := EnvSet)).(env := Some(file));
    assert Moves(s, s1, c) && Moves(s1, s2, c) && Moves(s2, s3, c) && Moves(s3, s4, c);
    assert s4.files == InUse(s, c, file).files && s4.callers == InUse(s, c, file).callers;
    path := [s, s1, s2, s3, s4];
  }

  lemma FetchAfterUse(s: State, c: nat) returns (path: seq<State>)
    requires c in s.callers && s.callers[c].pc == EnvSet
    ensures |path| == 6 && path[0] == s
    ensures forall i :: 0 <= i < 5 ==> Moves(path[i], path[i + 1], c)
    ensures path[5] == State(s.callers[c := s.callers[c].(pc := Finished, read := ReadProfile(s))], None, None,
                             s.files - {s.callers[c].file})
  {
    var read := s.callers[c].(pc := Resolved, read := ReadProfile(s));
    var s5 := Moved(s, c, read);
    var s6 := Moved(s5, c, read.(pc := EnvUnset)).(env := None);
    var s7 := Moved(s6, c, read.(pc := Unlocked)).(lock := None);
    var s8 := Moved(s7, c, read.(pc := Closed));
    var s9 := Moved(s8, c, read.(pc := Finished)).(files := s8.files - {read.file});
    assert Moves(s, s5, c) && Moves(s5, s6, c) && Moves(s6, s7, c) && Moves(s7, s8, c) && Moves(s8, s9, c);
    assert s9.callers == s.callers[c := read.(pc := Finished)];
    path := [s, s5, s6, s7, s8, s9];
  }

  /**
   An undisturbed call succeeds and leaves no trace: with the lock free, a caller with a secret can go through
   to its end in nine steps, has then read its secret, and lock, variable and files are as before.
   */
  lemma FetchAlone(s: State, c: nat, file: string) returns (path: seq<State>)
    requires c in s.callers && s.lock.None? && s.env.None? && file !in s.files
    requires s.callers[c].pc == Started && s.callers[c].secret.Some?
    ensures |path| == 10 && path[0] == s
    ensures forall i :: 0 <= i < 9 ==> Moves(path[i], path[i + 1], c)
    ensures c in path[9].callers && path[9].callers[c].pc == Finished && path[9].callers[c].read == s.callers[c].secret
    ensures path[9] == Moved(s, c, path[9].callers[c])
  {
    hide Moves;
    var first := FetchUntilUse(s, c, file);
    var second := FetchAfterUse(first[4], c);
    path := first[..4] + second;
    forall i | 0 <= i < 9
      ensures Moves(path[i], path[i + 1], c)
    {
      if i < 4 {
        assert path[i] == first[i] && path[i + 1] == first[i + 1];
      } else {
        assert path[i] == second[i - 4] && path[i + 1] == second[i - 3];
      }
    }
    assert path[9] == second[5];
    assert path[9].files == s.files && path[9].callers == s.callers[c := path[9].callers[c]];
  }
}
