/**
 Any number of processes opening, locking, appending to and leaving one ledger, one file-system
 operation at a time: crates/caddis-core/src/ledger_lock.rs around crates/caddis-core/src/ledger.rs.

 `Create` is `create_new`, `PutToken` the token written into the new file (best effort), `SeeHeld` a
 `create_new` that found the file and `Retry` the next turn of the loop, `SeeStale` and `Break` the two
 operations of the stale-breaker, `Enter` the fail-open return without the lock, `ReadMax`, `Write` and
 `Stat` the three of `append`, `CheckToken` and `Unlink` the two of `drop`. A process may crash between
 any two of them. Age and waiting time are left open: a process that found the file may go on in
 any of the three ways.
 */
module LedgerProtocol {
  import opened Wrappers
  import opened Text
  import opened LedgerRow
  import opened Ledger

  type Pid = nat

  /** The lock file: which acquisition created it, and whether its token was written into it. */
  datatype LockFile = Absent | Present(owner: nat, written: bool)

  datatype Pc = Idle | Waiting | Breaking | Created | Locked | Ready | Wrote | Leaving | Unlinking

  datatype Process = Process(pc: Pc, owned: bool, token: nat, seqNo: nat, readTo: nat)

  datatype State = State(text: string, lock: LockFile, procs: map<Pid, Process>, clock: nat, issued: seq<nat>)

  datatype Event =
    | Open(p: Pid)
    | Create(p: Pid)
    | PutToken(p: Pid, stored: bool)
    | SeeHeld(p: Pid)
    | Retry(p: Pid)
    | SeeStale(p: Pid)
    | Break(p: Pid)
    | Enter(p: Pid)
    | ReadMax(p: Pid)
    | Write(p: Pid, env: Envelope)
    | Stat(p: Pid)
    | CheckToken(p: Pid)
    | Unlink(p: Pid)
    | Crash(p: Pid)

  /** Between `acquire` returning (or its file appearing) and the end of `drop`. */
  predicate Inside(pc: Pc) {
    pc != Idle && pc != Waiting && pc != Breaking
  }

  predicate In(s: State, p: Pid, pc: Pc) {
    p in s.procs && s.procs[p].pc == pc
  }

  function Put(s: State, p: Pid, q: Process): State {
    s.(procs := s.procs[p := q])
  }

  predicate Enabled(s: State, e: Event) {
    match e
    case Open(p) => p !in s.procs || In(s, p, Idle)
    case Create(p) => In(s, p, Idle) && s.lock.Absent?
    case PutToken(p, _) => In(s, p, Created)
    case SeeHeld(p) => In(s, p, Idle) && s.lock.Present?
    case Retry(p) => In(s, p, Waiting)
    case SeeStale(p) => In(s, p, Waiting) && s.lock.Present?
    case Break(p) => In(s, p, Breaking)
    case Enter(p) => In(s, p, Waiting)
    case ReadMax(p) => In(s, p, Locked)
    case Write(p, _) => In(s, p, Ready)
    case Stat(p) => In(s, p, Wrote)
    case CheckToken(p) => In(s, p, Leaving)
    case Unlink(p) => In(s, p, Unlinking)
    case Crash(p) => p in s.procs
  }

  function Next(s: State, e: Event): State
    requires Enabled(s, e)
  {
    match e
    case Open(p) => Put(s, p, Process(Idle, false, 0, MaxIntact(s.text), |s.text|))
    case Create(p) =>
      Put(s, p, s.procs[p].(pc := Created, owned := true, token := s.clock))
      .(lock := Present(s.clock, false), clock := s.clock + 1)
    case PutToken(p, stored) =>
      Put(s, p, s.procs[p].(pc := Locked))
      .(lock := if stored && s.lock == Present(s.procs[p].token, false) then s.lock.(written := true) else s.lock)
    case SeeHeld(p) => Put(s, p, s.procs[p].(pc := Waiting))
    case Retry(p) => Put(s, p, s.procs[p].(pc := Idle))
    case SeeStale(p) => Put(s, p, s.procs[p].(pc := Breaking))
    case Break(p) => Put(s, p, s.procs[p].(pc := Idle)).(lock := Absent)
    case Enter(p) => Put(s, p, s.procs[p].(pc := Locked, owned := false))
    case ReadMax(p) =>
      var q := s.procs[p];
      Put(s, p, q.(pc := Ready, seqNo := Claim(Windowed(s.text, q.seqNo, q.readTo))))
    case Write(p, env) =>
      var n := s.procs[p].seqNo;
      Put(s, p, s.procs[p].(pc := Wrote)).(text := s.text + RowText(n, env), issued := s.issued + [n])
    case Stat(p) => Put(s, p, s.procs[p].(pc := Leaving, readTo := |s.text|))
    case CheckToken(p) =>
      var q := s.procs[p];
      Put(s, p, q.(pc := if q.owned && s.lock == Present(q.token, true) then Unlinking else Idle))
    case Unlink(p) => Put(s, p, s.procs[p].(pc := Idle)).(lock := Absent)
    case Crash(p) => s.(procs := s.procs - {p})
  }

  /** The state after the events in order, if each was enabled in its turn. */
  function Run(s: State, es: seq<Event>): Option<State>
    decreases |es|
  {
    if es == [] then Some(s)
    else if Enabled(s, es[0]) then Run(Next(s, es[0]), es[1..])
    else None
  }

  /** Nobody has the ledger open; the file is empty or ends a row; a lock file may lie about. */
  predicate Initial(s: State) {
    s.procs == map[] && s.issued == [] && Terminated(s.text)
  }

  predicate Exclusive(s: State) {
    forall p, q :: p in s.procs && q in s.procs && Inside(s.procs[p].pc) && Inside(s.procs[q].pc) ==> p == q
  }

  predicate NobodyInside(s: State) {
    forall p :: p in s.procs ==> !Inside(s.procs[p].pc)
  }

  /**
   The condition on the two fail-open branches: a lock is broken only with nobody inside, and entered
   past only with nobody inside and the lock file still there.
   */
  predicate Guarded(s: State, e: Event) {
    match e
    case Break(_) => NobodyInside(s)
    case Enter(_) => NobodyInside(s) && s.lock.Present?
    case _ => true
  }

  ghost predicate GuardedRun(s: State, es: seq<Event>)
    ensures GuardedRun(s, es) ==> Run(s, es).Some?
    decreases |es|
  {
    es == [] || (Enabled(s, es[0]) && Guarded(s, es[0]) && GuardedRun(Next(s, es[0]), es[1..]))
  }

  // ---------- the invariant ----------

  /** What a process inside has of the lock: the file is there, and it is its own if it created one. */
  ghost predicate Holds(s: State, q: Process) {
    && (Inside(q.pc) ==> s.lock.Present? && (q.owned ==> s.lock.owner == q.token))
    && (q.pc == Unlinking ==> q.owned)
    && (q.pc == Ready ==> q.seqNo < U64_LIMIT)
  }

  /** What its number and offset say of the file. */
  ghost predicate Sound(text: string, q: Process) {
    match q.pc
    case Ready => q.seqNo == Claim(MaxIntact(text))
    case Wrote => q.seqNo == MaxIntact(text)
    case _ => Accounts(text, q.seqNo, q.readTo)
  }

  /** `n` consecutive numbers after `m`. */
  function Following(m: nat, n: nat): seq<nat> {
    seq(n, k => m + 1 + k)
  }

  ghost predicate Counted(s: State, text0: string) {
    && s.issued == Following(MaxIntact(text0), |s.issued|)
    && MaxIntact(s.text) == MaxIntact(text0) + |s.issued|
    && (forall p :: p in s.procs ==> Sound(s.text, s.procs[p]))
  }

  /** The counter has not passed the last 64-bit number. */
  ghost predicate Unwrapped(s: State, text0: string) {
    MaxIntact(text0) + |s.issued| < U64_LIMIT
  }

  ghost predicate Inv(s: State, text0: string) {
    && Terminated(s.text)
    && Exclusive(s)
    && (forall p :: p in s.procs ==> Holds(s, s.procs[p]))
    && Numbers(Lines(s.text)) == Numbers(Lines(text0)) + s.issued
    && (forall n :: n in s.issued ==> n < U64_LIMIT)
    && (Unwrapped(s, text0) ==> Counted(s, text0))
  }

  /** A step that changes the lock and one process, with nobody else inside. */
  lemma LockStep(s: State, p: Pid, q: Process, lock: LockFile, clock: nat, text0: string)
    requires Inv(s, text0) && p in s.procs
    requires forall r :: r in s.procs && r != p ==> !Inside(s.procs[r].pc)
    requires Holds(s.(lock := lock), q)
    requires Sound(s.text, s.procs[p]) ==> Sound(s.text, q)
    ensures Inv(Put(s, p, q).(lock := lock, clock := clock), text0)
  {
    hide MaxIntact, Lines, Numbers, Terminated, Accounts, Following;
    var s' := Put(s, p, q).(lock := lock, clock := clock);
    forall r | r in s'.procs
      ensures Holds(s', s'.procs[r]) && (Sound(s.text, s.procs[r]) ==> Sound(s'.text, s'.procs[r]))
    {
      assert Holds(s, s.procs[r]);
    }
  }

  /** A step that leaves the text and the lock alone and changes one process. */
  lemma LocalStep(s: State, p: Pid, q: Process, text0: string)
    requires Inv(s, text0) && p in s.procs
    requires Inside(q.pc) ==> Inside(s.procs[p].pc)
    requires Holds(s, s.procs[p]) ==> Holds(s, q)
    requires Unwrapped(s, text0) && Sound(s.text, s.procs[p]) ==> Sound(s.text, q)
    ensures Inv(Put(s, p, q), text0)
  {
    hide MaxIntact, Lines, Numbers, Terminated, Accounts, Following, Sound, Inside;
    var s' := Put(s, p, q);
    forall r | r in s'.procs
      ensures Holds(s', s'.procs[r])
      ensures Unwrapped(s, text0) && Sound(s.text, s.procs[r]) ==> Sound(s'.text, s'.procs[r])
    {
      assert Holds(s, s.procs[r]);
    }
  }

  lemma AloneInside(s: State, p: Pid, text0: string)
    requires Inv(s, text0) && p in s.procs && (Inside(s.procs[p].pc) || s.lock.Absent?)
    ensures forall r :: r in s.procs && r != p ==> !Inside(s.procs[r].pc)
  {
    hide MaxIntact, Lines, Numbers, Terminated, Counted;
    assert forall r :: r in s.procs ==> Holds(s, s.procs[r]);
  }

  lemma StepCreate(s: State, p: Pid, text0: string)
    requires Inv(s, text0) && Enabled(s, Create(p))
    ensures Inv(Next(s, Create(p)), text0)
  {
    hide Inv, MaxIntact, Accounts;
    AloneInside(s, p, text0);
    LockStep(s, p, s.procs[p].(pc := Created, owned := true, token := s.clock), Present(s.clock, false),
      s.clock + 1, text0);
  }

  lemma StepPutToken(s: State, p: Pid, stored: bool, text0: string)
    requires Inv(s, text0) && Enabled(s, PutToken(p, stored))
    ensures Inv(Next(s, PutToken(p, stored)), text0)
  {
    assert Holds(s, s.procs[p]);
    hide Inv, MaxIntact, Accounts;
    AloneInside(s, p, text0);
    LockStep(s, p, s.procs[p].(pc := Locked), Next(s, PutToken(p, stored)).lock, s.clock, text0);
  }

  /** A removed lock file leaves nobody inside. */
  lemma StepRemove(s: State, e: Event, text0: string)
    requires Inv(s, text0) && Enabled(s, e) && (e.Unlink? || (e.Break? && Guarded(s, e)))
    ensures Inv(Next(s, e), text0)
  {
    hide Inv, MaxIntact, Accounts;
    if e.Unlink? {
      AloneInside(s, e.p, text0);
    }
    LockStep(s, e.p, s.procs[e.p].(pc := Idle), Absent, s.clock, text0);
  }

  lemma StepEnter(s: State, p: Pid, text0: string)
    requires Inv(s, text0) && Enabled(s, Enter(p)) && Guarded(s, Enter(p))
    ensures Inv(Next(s, Enter(p)), text0)
  {
    hide Inv, MaxIntact, Accounts;
    LockStep(s, p, s.procs[p].(pc := Locked, owned := false), s.lock, s.clock, text0);
  }

  lemma StepReadMax(s: State, p: Pid, text0: string)
    requires Inv(s, text0) && Enabled(s, ReadMax(p))
    ensures Inv(Next(s, ReadMax(p)), text0)
    ensures Unwrapped(s, text0) ==> Next(s, ReadMax(p)).procs[p].seqNo == Claim(MaxIntact(s.text))
  {
    hide MaxIntact, Windowed, Lines, Numbers, Claim, Terminated, Unwrapped;
    var q := s.procs[p];
    assert Holds(s, q) && (Unwrapped(s, text0) ==> Sound(s.text, q));
    WindowRefinesRescan(s.text, q.seqNo, q.readTo);
    LocalStep(s, p, Next(s, ReadMax(p)).procs[p], text0);
  }

  /** What a process outside the lock knows survives whatever is appended. */
  lemma OutsideSound(text: string, more: string, q: Process)
    requires Sound(text, q) && !Inside(q.pc)
    ensures Sound(text + more, q)
  {
    hide Accounts;
    GrownWindow(text, more, q.seqNo, q.readTo);
  }

  lemma StepWrite(s: State, p: Pid, env: Envelope, text0: string)
    requires Inv(s, text0) && Enabled(s, Write(p, env))
    ensures Inv(Next(s, Write(p, env)), text0)
  {
    hide RowText, Lines, MaxIntact, Numbers, Terminated, Accounts;
    var s' := Next(s, Write(p, env));
    var q := s.procs[p];
    assert Holds(s, q);
    AppendedRow(s.text, q.seqNo, env);
    forall r | r in s'.procs ensures Holds(s', s'.procs[r]) {
      assert Holds(s, s.procs[r]);
    }
    assert Numbers(Lines(text0)) + s.issued + [q.seqNo] == Numbers(Lines(text0)) + s'.issued;
    if Unwrapped(s', text0) {
      WrittenCounted(s, p, env, text0);
    }
  }

  lemma WrittenCounted(s: State, p: Pid, env: Envelope, text0: string)
    requires Inv(s, text0) && Enabled(s, Write(p, env)) && Unwrapped(Next(s, Write(p, env)), text0)
    ensures Counted(Next(s, Write(p, env)), text0)
  {
    hide RowText, Lines, MaxIntact, Numbers, Terminated, Accounts;
    var s' := Next(s, Write(p, env));
    var q := s.procs[p];
    assert Holds(s, q) && Unwrapped(s, text0) && Sound(s.text, q);
    assert q.seqNo == MaxIntact(s.text) + 1;
    AppendedRow(s.text, q.seqNo, env);
    forall r | r in s'.procs ensures Sound(s'.text, s'.procs[r]) {
      if r != p {
        assert !Inside(s.procs[r].pc) && Sound(s.text, s.procs[r]);
        OutsideSound(s.text, RowText(q.seqNo, env), s.procs[r]);
      }
    }
    assert s'.issued == Following(MaxIntact(text0), |s'.issued|);
  }

  lemma StepOpen(s: State, p: Pid, text0: string)
    requires Inv(s, text0) && Enabled(s, Open(p))
    ensures Inv(Next(s, Open(p)), text0)
  {
    hide MaxIntact, Lines, Numbers;
    var s' := Next(s, Open(p));
    assert s.text[..|s.text|] == s.text;
    forall r | r in s'.procs
      ensures Holds(s', s'.procs[r]) && (Unwrapped(s, text0) ==> Sound(s'.text, s'.procs[r]))
    {
      if r != p {
        assert Holds(s, s.procs[r]);
      }
    }
  }

  lemma StepCrash(s: State, p: Pid, text0: string)
    requires Inv(s, text0) && Enabled(s, Crash(p))
    ensures Inv(Next(s, Crash(p)), text0)
  {
    hide MaxIntact, Lines, Numbers, Terminated, Sound;
    var s' := Next(s, Crash(p));
    forall r | r in s'.procs ensures Holds(s', s'.procs[r]) {
      assert Holds(s, s.procs[r]);
    }
  }

  lemma StepStat(s: State, p: Pid, text0: string)
    requires Inv(s, text0) && Enabled(s, Stat(p))
    ensures Inv(Next(s, Stat(p)), text0)
  {
    assert Terminated(s.text);
    hide Inv, MaxIntact, Terminated;
    assert s.text[..|s.text|] == s.text;
    LocalStep(s, p, Next(s, Stat(p)).procs[p], text0);
  }

  /** Every guarded step, from any state satisfying the invariant, keeps it. */
  lemma {:induction false} Step(s: State, e: Event, text0: string)
    requires Inv(s, text0) && Enabled(s, e) && Guarded(s, e)
    ensures Inv(Next(s, e), text0)
  {
    hide Inv, MaxIntact, Accounts;
    match e
    case Open(p) => StepOpen(s, p, text0);
    case Create(p) => StepCreate(s, p, text0);
    case PutToken(p, stored) => StepPutToken(s, p, stored, text0);
    case SeeHeld(p) => LocalStep(s, p, Next(s, e).procs[p], text0);
    case Retry(p) => LocalStep(s, p, Next(s, e).procs[p], text0);
    case SeeStale(p) => LocalStep(s, p, Next(s, e).procs[p], text0);
    case Break(_) => StepRemove(s, e, text0);
    case Enter(p) => StepEnter(s, p, text0);
    case ReadMax(p) => StepReadMax(s, p, text0);
    case Write(p, env) => StepWrite(s, p, env, text0);
    case Stat(p) => StepStat(s, p, text0);
    case CheckToken(p) => LocalStep(s, p, Next(s, e).procs[p], text0);
    case Unlink(_) => StepRemove(s, e, text0);
    case Crash(p) => StepCrash(s, p, text0);
  }

  lemma {:induction false} RunKeepsInv(s: State, es: seq<Event>, text0: string)
    requires Inv(s, text0) && GuardedRun(s, es)
    ensures Inv(Run(s, es).value, text0)
    decreases |es|
  {
    hide Inv, Next, Enabled, Guarded;
    if es != [] {
      Step(s, es[0], text0);
      RunKeepsInv(Next(s, es[0]), es[1..], text0);
    }
  }

  lemma InitialInv(s: State)
    requires Initial(s)
    ensures Inv(s, s.text)
  {
    hide MaxIntact, Lines, Numbers, Terminated;
  }

  // ---------- what guarded runs keep ----------

  /**
   In every guarded run, whatever the interleaving and wherever processes crash: at most one process
   is inside, and the numbers issued are what a reader finds appended. They are the consecutive ones
   after the largest intact number the file started with, none skipped or issued twice, exactly as
   long as those are 64-bit numbers.
   */
  lemma {:induction false} GuardedRunsAreSafe(s: State, es: seq<Event>)
    requires Initial(s) && GuardedRun(s, es)
    ensures var t := Run(s, es).value;
      && Exclusive(t)
      && Numbers(Lines(t.text)) == Numbers(Lines(s.text)) + t.issued
      && (t.issued == Following(MaxIntact(s.text), |t.issued|) <==> MaxIntact(s.text) + |t.issued| < U64_LIMIT)
  {
    hide Run, GuardedRun, MaxIntact, Lines, Numbers, Inv, Initial;
    InitialInv(s);
    RunKeepsInv(s, es, s.text);
    InvMeans(Run(s, es).value, s.text);
  }

  lemma InvMeans(t: State, text0: string)
    requires Inv(t, text0)
    ensures Exclusive(t) && Numbers(Lines(t.text)) == Numbers(Lines(text0)) + t.issued
    ensures t.issued == Following(MaxIntact(text0), |t.issued|) <==> MaxIntact(text0) + |t.issued| < U64_LIMIT
  {
    MaxFits(text0);
    hide MaxIntact, Lines, Numbers, Terminated, Exclusive, Holds, Sound;
    var m := MaxIntact(text0);
    if t.issued != [] && m + |t.issued| >= U64_LIMIT {
      var last := t.issued[|t.issued| - 1];
      assert last in t.issued && last < U64_LIMIT;
      assert Following(m, |t.issued|)[|t.issued| - 1] == m + |t.issued|;
    }
  }

  /** No process took the stale branch or entered without the lock. */
  predicate Clean(es: seq<Event>) {
    forall i :: 0 <= i < |es| ==> !es[i].SeeStale? && !es[i].Enter?
  }

  lemma {:induction false} CleanIsGuarded(s: State, es: seq<Event>)
    requires Clean(es) && Run(s, es).Some?
    requires forall p :: p in s.procs ==> s.procs[p].pc != Breaking
    ensures GuardedRun(s, es)
    decreases |es|
  {
    hide MaxIntact, Windowed, RowText;
    if es != [] {
      CleanIsGuarded(Next(s, es[0]), es[1..]);
    }
  }

  /** A run without the two fail-open branches is guarded; its numbers, in particular, never repeat. */
  lemma {:induction false} CleanRunsAreSafe(s: State, es: seq<Event>)
    requires Initial(s) && Clean(es) && Run(s, es).Some?
    ensures var t := Run(s, es).value;
      && Exclusive(t)
      && Numbers(Lines(t.text)) == Numbers(Lines(s.text)) + t.issued
      && (t.issued == Following(MaxIntact(s.text), |t.issued|) <==> MaxIntact(s.text) + |t.issued| < U64_LIMIT)
      && (MaxIntact(s.text) + |t.issued| < U64_LIMIT ==>
            forall i, j :: 0 <= i < j < |t.issued| ==> t.issued[i] != t.issued[j])
  {
    hide MaxIntact, Lines, Numbers, Terminated, Exclusive, Run, GuardedRun;
    CleanIsGuarded(s, es);
    GuardedRunsAreSafe(s, es);
  }

  lemma UnwrappedMeans(t: State, text0: string)
    ensures Unwrapped(t, text0) <==> MaxIntact(text0) + |t.issued| < U64_LIMIT
    ensures Claim(MaxIntact(t.text)) == if MaxIntact(t.text) + 1 < U64_LIMIT then MaxIntact(t.text) + 1 else 0
  {
    MaxFits(t.text);
    hide MaxIntact;
  }

  /** Each number claimed under the lock is one more than the largest intact number in the file, or wraps. */
  lemma {:induction false} ClaimIsNext(s: State, es: seq<Event>, p: Pid)
    requires Initial(s) && GuardedRun(s, es)
    requires Enabled(Run(s, es).value, ReadMax(p))
    ensures var t := Run(s, es).value;
      MaxIntact(s.text) + |t.issued| < U64_LIMIT ==>
        Next(t, ReadMax(p)).procs[p].seqNo == if MaxIntact(t.text) + 1 < U64_LIMIT then MaxIntact(t.text) + 1 else 0
  {
    hide *;
    InitialInv(s);
    RunKeepsInv(s, es, s.text);
    StepReadMax(Run(s, es).value, p, s.text);
    UnwrappedMeans(Run(s, es).value, s.text);
  }

  /** In every guarded run the file a process unlinks is the one it created. */
  lemma {:induction false} UnlinkIsOwn(s: State, es: seq<Event>, p: Pid)
    requires Initial(s) && GuardedRun(s, es)
    requires Enabled(Run(s, es).value, Unlink(p))
    ensures var t := Run(s, es).value; t.lock.Present? && t.procs[p].owned && t.lock.owner == t.procs[p].token
  {
    InitialInv(s);
    RunKeepsInv(s, es, s.text);
    assert Holds(Run(s, es).value, Run(s, es).value.procs[p]);
  }

  // ---------- the guard is exact ----------

  /** However a guarded run goes on from here, at most one process is inside. */
  ghost predicate Apart(s: State) {
    forall more :: GuardedRun(s, more) ==> Exclusive(Run(s, more).value)
  }

  ghost predicate ApartThroughout(s: State, es: seq<Event>)
    requires Run(s, es).Some?
    decreases |es|
  {
    Apart(s) && (es != [] ==> ApartThroughout(Next(s, es[0]), es[1..]))
  }

  lemma InvApart(s: State, text0: string)
    requires Inv(s, text0)
    ensures Apart(s)
  {
    forall more | GuardedRun(s, more) ensures Exclusive(Run(s, more).value) {
      RunKeepsInv(s, more, text0);
    }
  }

  lemma {:induction false} Unused(used: set<Pid>) returns (r: Pid)
    ensures forall p :: p in used ==> p < r
  {
    if used == {} {
      r := 0;
    } else {
      var q :| q in used;
      r := Unused(used - {q});
      r := if r <= q then q + 1 else r;
      assert forall p :: p in used ==> p == q || p in used - {q};
    }
  }

  /** A lock broken under somebody lets the breaker in beside him. */
  lemma BreakLetsIn(s: State, p: Pid)
    requires Enabled(s, Break(p)) && !NobodyInside(s)
    ensures !Apart(Next(s, Break(p)))
  {
    hide Run, GuardedRun;
    var q :| q in s.procs && Inside(s.procs[q].pc);
    var s1 := Next(s, Break(p));
    var s2 := Next(s1, Create(p));
    GuardedOne(s1, Create(p));
    assert Inside(s2.procs[p].pc) && Inside(s2.procs[q].pc) && !Exclusive(s2);
  }

  /** A process that entered past no lock file leaves the next one free to create it. */
  lemma EnterLetsIn(s: State, p: Pid)
    requires Enabled(s, Enter(p)) && s.lock.Absent?
    ensures !Apart(Next(s, Enter(p)))
  {
    hide Run, GuardedRun, MaxIntact;
    var r := Unused(s.procs.Keys);
    var s1 := Next(s, Enter(p));
    assert p in s.procs.Keys && r !in s.procs.Keys;
    var s2 := Next(s1, Open(r));
    var s3 := Next(s2, Create(r));
    GuardedTwo(s1, Open(r), Create(r));
    assert Inside(s3.procs[p].pc) && Inside(s3.procs[r].pc) && !Exclusive(s3);
  }

  lemma GuardedOne(s: State, e: Event)
    requires Enabled(s, e) && Guarded(s, e)
    ensures GuardedRun(s, [e]) && Run(s, [e]) == Some(Next(s, e))
  {
    hide Enabled, Guarded, Next;
    assert [e][1..] == [];
    assert GuardedRun(Next(s, e), []);
    assert Run(Next(s, e), []) == Some(Next(s, e));
  }

  lemma GuardedTwo(s: State, e: Event, f: Event)
    requires Enabled(s, e) && Guarded(s, e)
    requires Enabled(Next(s, e), f) && Guarded(Next(s, e), f)
    ensures GuardedRun(s, [e, f]) && Run(s, [e, f]) == Some(Next(Next(s, e), f))
  {
    hide Enabled, Guarded, Next;
    GuardedOne(Next(s, e), f);
    assert [e, f][1..] == [f];
  }

  /**
   The guard is exact, step by step: where the invariant holds, a step is guarded if and only if
   every guarded way to go on from it keeps the exclusion.
   */
  lemma {:induction false} GuardIsExact(s: State, e: Event, text0: string)
    requires Inv(s, text0) && Enabled(s, e)
    ensures Guarded(s, e) <==> Apart(Next(s, e))
  {
    hide Inv, Apart, MaxIntact, Windowed, RowText;
    if Guarded(s, e) {
      Step(s, e, text0);
      InvApart(Next(s, e), text0);
    } else if e.Break? {
      BreakLetsIn(s, e.p);
    } else if s.lock.Absent? {
      EnterLetsIn(s, e.p);
    } else {
      EnteredBeside(s, e.p);
    }
  }

  lemma EnteredBeside(s: State, p: Pid)
    requires Enabled(s, Enter(p)) && !NobodyInside(s)
    ensures !Apart(Next(s, Enter(p)))
  {
    var q :| q in s.procs && Inside(s.procs[q].pc);
    var s1 := Next(s, Enter(p));
    assert GuardedRun(s1, []) && Run(s1, []) == Some(s1);
    assert Inside(s1.procs[p].pc) && Inside(s1.procs[q].pc) && !Exclusive(s1);
  }

  lemma {:induction false} GuardedIffApart(s: State, es: seq<Event>, text0: string)
    requires Inv(s, text0) && Run(s, es).Some?
    ensures GuardedRun(s, es) <==> ApartThroughout(s, es)
    decreases |es|
  {
    hide Inv, Apart, Next, Enabled, Guarded;
    InvApart(s, text0);
    if es != [] {
      GuardIsExact(s, es[0], text0);
      if Guarded(s, es[0]) {
        Step(s, es[0], text0);
        GuardedIffApart(Next(s, es[0]), es[1..], text0);
      }
    }
  }

  /**
   Over whole runs: a run is guarded if and only if at no point of it can two processes come to be
   inside without another breach of the guard.
   */
  lemma {:induction false} ExclusionLaw(s: State, es: seq<Event>)
    requires Initial(s) && Run(s, es).Some?
    ensures GuardedRun(s, es) <==> ApartThroughout(s, es)
  {
    InitialInv(s);
    GuardedIffApart(s, es, s.text);
  }

  /** A dead holder's lock, nobody inside: of two processes that find it stale, both get in. */
  lemma {:induction false} TwoBreakers(s: State, p: Pid, q: Pid)
    requires In(s, p, Idle) && In(s, q, Idle) && p != q && s.lock.Present?
    ensures var es := [SeeHeld(p), SeeHeld(q), SeeStale(p), SeeStale(q)] + [Break(p), Create(p), Break(q), Create(q)];
      && Run(s, es).Some?
      && In(Run(s, es).value, p, Created) && In(Run(s, es).value, q, Created)
      && !Exclusive(Run(s, es).value)
  {
    hide Run;
    var s2 := Next(Next(s, SeeHeld(p)), SeeHeld(q));
    var s4 := Next(Next(s2, SeeStale(p)), SeeStale(q));
    RunFour(s, SeeHeld(p), SeeHeld(q), SeeStale(p), SeeStale(q));
    var s6 := Next(Next(s4, Break(p)), Create(p));
    var s8 := Next(Next(s6, Break(q)), Create(q));
    RunFour(s4, Break(p), Create(p), Break(q), Create(q));
    RunJoins(s, [SeeHeld(p), SeeHeld(q), SeeStale(p), SeeStale(q)], [Break(p), Create(p), Break(q), Create(q)]);
    assert Inside(s8.procs[p].pc) && Inside(s8.procs[q].pc);
  }

  lemma RunFour(s: State, a: Event, b: Event, c: Event, d: Event)
    requires Enabled(s, a) && Enabled(Next(s, a), b)
    requires Enabled(Next(Next(s, a), b), c) && Enabled(Next(Next(Next(s, a), b), c), d)
    ensures Run(s, [a, b, c, d]) == Some(Next(Next(Next(Next(s, a), b), c), d))
  {
    hide Next, Enabled;
    var s2 := Next(Next(s, a), b);
    RunTwo(s2, c, d);
    assert [a, b, c, d][1..] == [b, c, d] && [b, c, d][1..] == [c, d];
    assert Run(Next(s, a), [b, c, d]) == Run(s2, [c, d]);
  }

  lemma RunTwo(s: State, a: Event, b: Event)
    requires Enabled(s, a) && Enabled(Next(s, a), b)
    ensures Run(s, [a, b]) == Some(Next(Next(s, a), b))
  {
    hide Next, Enabled;
    assert [a, b][1..] == [b] && [b][1..] == [];
    assert Run(Next(s, a), [b]) == Run(Next(Next(s, a), b), []);
  }

  /** And the exclusion is what keeps the numbers apart: a timed-out writer repeats the holder's. */
  lemma {:induction false} TimedOutWriterRepeats(a: Envelope, b: Envelope)
    ensures var s := State("", Absent, map[], 0, []);
      var es := [Open(1), Open(2)] + [Create(1), SeeHeld(2), Enter(2), PutToken(1, true)]
        + [ReadMax(1), ReadMax(2), Write(1, a), Write(2, b)];
      Initial(s) && Run(s, es).Some? && Run(s, es).value.issued == [1, 1]
  {
    var s := State("", Absent, map[], 0, []);
    hide RowText, Windowed, MaxIntact, Run, Next, Enabled;
    var open, enter := [Open(1), Open(2)], [Create(1), SeeHeld(2), Enter(2), PutToken(1, true)];
    var s2 := BothOpen();
    var s6 := BothEnter(s2);
    BothWrite(s6, a, b);
    RunJoins(s, open, enter);
    RunJoins(s, open + enter, [ReadMax(1), ReadMax(2), Write(1, a), Write(2, b)]);
  }

  lemma BothOpen() returns (t: State)
    ensures Run(State("", Absent, map[], 0, []), [Open(1), Open(2)]) == Some(t)
    ensures t == State("", Absent, map[1 := Process(Idle, false, 0, 0, 0), 2 := Process(Idle, false, 0, 0, 0)], 0, [])
  {
    NothingIssued();
    hide MaxIntact, Run;
    var s := State("", Absent, map[], 0, []);
    t := Next(Next(s, Open(1)), Open(2));
    RunTwo(s, Open(1), Open(2));
  }

  lemma BothEnter(s: State) returns (t: State)
    requires s == State("", Absent, map[1 := Process(Idle, false, 0, 0, 0), 2 := Process(Idle, false, 0, 0, 0)], 0, [])
    ensures Run(s, [Create(1), SeeHeld(2), Enter(2), PutToken(1, true)]) == Some(t)
    ensures BothInside(t)
    ensures t == State("", Present(0, true), map[1 := Process(Locked, true, 0, 0, 0),
      2 := Process(Locked, false, 0, 0, 0)], 1, [])
  {
    hide Run;
    var s2 := Next(Next(s, Create(1)), SeeHeld(2));
    t := Next(Next(s2, Enter(2)), PutToken(1, true));
    RunFour(s, Create(1), SeeHeld(2), Enter(2), PutToken(1, true));
  }

  lemma NothingIssued()
    ensures MaxIntact("") == 0
  {
  }

  predicate BothInside(s: State) {
    && In(s, 1, Locked) && In(s, 2, Locked) && s.text == "" && s.issued == []
    && s.procs[1].seqNo == s.procs[1].readTo == s.procs[2].seqNo == s.procs[2].readTo == 0
  }

  lemma NothingToRead()
    ensures Windowed("", 0, 0) == 0
  {
  }

  lemma RunNothing(s: State)
    ensures Run(s, []) == Some(s)
  {
  }

  lemma BothWrite(s: State, a: Envelope, b: Envelope)
    requires BothInside(s)
    ensures var t := Run(s, [ReadMax(1), ReadMax(2), Write(1, a), Write(2, b)]);
      t.Some? && t.value.issued == [1, 1]
  {
    hide RowText, Windowed, Run;
    NothingToRead();
    var s2 := Next(Next(s, ReadMax(1)), ReadMax(2));
    assert In(s2, 1, Ready) && In(s2, 2, Ready) && s2.procs[1].seqNo == 1 && s2.procs[2].seqNo == 1;
    var s3 := Next(s2, Write(1, a));
    assert s3.issued == [1] && In(s3, 2, Ready);
    RunFour(s, ReadMax(1), ReadMax(2), Write(1, a), Write(2, b));
  }

  lemma {:induction false} RunJoins(s: State, a: seq<Event>, b: seq<Event>)
    requires Run(s, a).Some?
    ensures Run(s, a + b) == Run(Run(s, a).value, b)
    decreases |a|
  {
    hide Enabled, Next;
    if a == [] {
      assert a + b == b;
    } else {
      RunJoins(Next(s, a[0]), a[1..], b);
      assert (a + b)[1..] == a[1..] + b;
    }
  }

  // ---------- past the last 64-bit number ----------

  /** One process opening the ledger, appending one row under the lock, and leaving. */
  function Visit(p: Pid, env: Envelope): seq<Event> {
    [Open(p), Create(p), PutToken(p, true), ReadMax(p)] + [Write(p, env), Stat(p), CheckToken(p), Unlink(p)]
  }

  function Visits(ps: seq<Pid>, env: Envelope): seq<Event> {
    if ps == [] then [] else Visit(ps[0], env) + Visits(ps[1..], env)
  }

  /** The file is at the end of the counter, nobody is inside, and no lock file lies about. */
  ghost predicate Exhausted(s: State) {
    && Terminated(s.text) && MaxIntact(s.text) == U64_LIMIT - 1
    && s.lock.Absent? && (forall p :: p in s.procs ==> s.procs[p].pc == Idle)
  }

  /** Half-way through a visit: the lock held, zero claimed. */
  function Claimed(s: State, p: Pid): State {
    Put(s, p, Process(Ready, true, s.clock, 0, |s.text|)).(lock := Present(s.clock, true), clock := s.clock + 1)
  }

  lemma VisitClaims(s: State, p: Pid)
    requires Exhausted(s)
    ensures Run(s, [Open(p), Create(p), PutToken(p, true), ReadMax(p)]) == Some(Claimed(s, p))
  {
    hide Run, MaxIntact, Windowed, Terminated;
    var s2 := Next(Next(s, Open(p)), Create(p));
    RunTwo(s, Open(p), Create(p));
    ClaimAtEnd(s2, p);
    assert Next(Next(s2, PutToken(p, true)), ReadMax(p)) == Claimed(s, p);
    RunTwo(s2, PutToken(p, true), ReadMax(p));
    RunJoins(s, [Open(p), Create(p)], [PutToken(p, true), ReadMax(p)]);
    assert [Open(p), Create(p)] + [PutToken(p, true), ReadMax(p)]
      == [Open(p), Create(p), PutToken(p, true), ReadMax(p)];
  }

  lemma ClaimAtEnd(s: State, p: Pid)
    requires Terminated(s.text) && MaxIntact(s.text) == U64_LIMIT - 1
    requires In(s, p, Created) && s.lock == Present(s.procs[p].token, false)
    requires s.procs[p].seqNo == U64_LIMIT - 1 && s.procs[p].readTo == |s.text|
    ensures Enabled(Next(s, PutToken(p, true)), ReadMax(p))
    ensures Next(Next(s, PutToken(p, true)), ReadMax(p))
      == Put(s, p, s.procs[p].(pc := Ready, seqNo := 0)).(lock := Present(s.procs[p].token, true))
  {
    assert s.text[..|s.text|] == s.text;
    hide MaxIntact, Windowed, Terminated;
    WindowRefinesRescan(s.text, U64_LIMIT - 1, |s.text|);
  }

  lemma VisitWrites(s: State, p: Pid, env: Envelope) returns (t: State)
    requires Exhausted(s)
    ensures Run(Claimed(s, p), [Write(p, env), Stat(p), CheckToken(p), Unlink(p)]) == Some(t)
    ensures Exhausted(t) && t.issued == s.issued + [0]
  {
    hide Run, MaxIntact, RowText, Terminated, Numbers, Lines;
    AppendedRow(s.text, 0, env);
    var s0 := Claimed(s, p);
    var s2 := Next(Next(s0, Write(p, env)), Stat(p));
    RunTwo(s0, Write(p, env), Stat(p));
    t := LeaveOwn(s2, p);
    assert forall r :: r in t.procs && r != p ==> r in s.procs && t.procs[r] == s.procs[r];
    RunJoins(s0, [Write(p, env), Stat(p)], [CheckToken(p), Unlink(p)]);
    assert [Write(p, env), Stat(p)] + [CheckToken(p), Unlink(p)] == [Write(p, env), Stat(p), CheckToken(p), Unlink(p)];
  }

  /** A holder that finds its own token removes the file and is outside. */
  lemma LeaveOwn(s: State, p: Pid) returns (t: State)
    requires In(s, p, Leaving) && s.procs[p].owned && s.lock == Present(s.procs[p].token, true)
    ensures Run(s, [CheckToken(p), Unlink(p)]) == Some(t)
    ensures t == Put(s, p, s.procs[p].(pc := Idle)).(lock := Absent)
  {
    hide Run, MaxIntact, RowText, Windowed;
    t := Next(Next(s, CheckToken(p)), Unlink(p));
    RunTwo(s, CheckToken(p), Unlink(p));
  }

  /** Once the file holds the last 64-bit number, every process that opens it issues zero again. */
  lemma {:induction false} ZeroRepeats(s: State, ps: seq<Pid>, env: Envelope)
    requires Exhausted(s)
    ensures Run(s, Visits(ps, env)).Some?
    ensures Run(s, Visits(ps, env)).value.issued == s.issued + seq(|ps|, _ => 0)
    decreases |ps|
  {
    hide Run, Exhausted;
    if ps == [] {
      RunNothing(s);
    } else {
      VisitClaims(s, ps[0]);
      var t := VisitWrites(s, ps[0], env);
      RunJoins(s, [Open(ps[0]), Create(ps[0]), PutToken(ps[0], true), ReadMax(ps[0])],
        [Write(ps[0], env), Stat(ps[0]), CheckToken(ps[0]), Unlink(ps[0])]);
      ZeroRepeats(t, ps[1..], env);
      RunJoins(s, Visit(ps[0], env), Visits(ps[1..], env));
      assert [0] + seq(|ps[1..]|, _ => 0) == seq(|ps|, _ => 0);
    }
  }

  /** Such a file exists: the one row that carries the number. */
  lemma {:induction false} LastNumberExists(env: Envelope)
    ensures Exhausted(State(RowText(U64_LIMIT - 1, env), Absent, map[], 0, []))
  {
    hide RowText, MaxIntact, Terminated, Numbers, Lines;
    NothingIssued();
    EmptyTerminated();
    AppendedRow("", U64_LIMIT - 1, env);
    assert "" + RowText(U64_LIMIT - 1, env) == RowText(U64_LIMIT - 1, env);
  }

  lemma EmptyTerminated()
    ensures Terminated("")
  {
  }
}
