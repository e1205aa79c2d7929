/** The two mutexes of the gateway (src/main.rs) and the bytes of the audit log (src/audit.rs): any number
    of threads, interleaved at every acquisition, release and write. */
module LockDiscipline {
  import opened Wrappers

  datatype Lock = StoreLock | AuditLock

  // What a thread does, as far as locks are concerned. A record may take several writes.
  datatype Event = Acquire(lock: Lock) | Release(lock: Lock) | UseStore | Write(piece: string) | Other

  type Thread = nat

  // ---------------------------------------------------------------- well-behaved scripts

  // What a thread holds and, for the audit lock, what it has written since it took it.
  datatype Held = Nothing | TheStore | TheLog(written: string)

  /** A line of the log: text without a newline, then one. */
  predicate IsLine(s: string) {
    s != "" && s[|s| - 1] == '\n' && '\n' !in s[..|s| - 1]
  }

  /** What a thread holds after an event, if the event is allowed: it takes a lock only when it holds none,
      releases only what it holds, and uses the store and writes to the log only under their locks. */
  function After(held: Held, e: Event): Option<Held> {
    match (held, e)
    case (_, Other) => Some(held)
    case (Nothing, Acquire(StoreLock)) => Some(TheStore)
    case (Nothing, Acquire(AuditLock)) => Some(TheLog(""))
    case (TheStore, UseStore) => Some(TheStore)
    case (TheStore, Release(StoreLock)) => Some(Nothing)
    case (TheLog(written), Write(piece)) => Some(TheLog(written + piece))
    case (TheLog(_), Release(AuditLock)) => Some(Nothing)
    case _ => None
  }

  /** What a thread that holds `held` holds after `script`, if all of it is allowed. */
  function Holding(held: Held, script: seq<Event>): Option<Held>
    decreases |script|
  {
    if script == [] then Some(held)
    else if After(held, script[0]).None? then None
    else Holding(After(held, script[0]).value, script[1..])
  }

  /** All of `rest` is allowed to a thread that holds `held`, which ends up with no lock. */
  predicate Disciplined(held: Held, rest: seq<Event>) {
    Holding(held, rest) == Some(Nothing)
  }

  lemma {:induction false} HoldingMore(held: Held, script: seq<Event>, e: Event)
    ensures Holding(held, script + [e]) ==
            if Holding(held, script).None? then None else After(Holding(held, script).value, e)
    decreases |script|
  {
    var all := script + [e];
    if script == [] {
      assert all[1..] == [];
    } else {
      assert all[0] == script[0] && all[1..] == script[1..] + [e];
      if After(held, script[0]).Some? {
        HoldingMore(After(held, script[0]).value, script[1..], e);
      }
    }
  }

  /** What an audit section may have written when its lock is released: a whole line or nothing. */
  predicate WholeSection(held: Held, e: Event) {
    held.TheLog? && e == Release(AuditLock) ==> held.written == "" || IsLine(held.written)
  }

  /** No section of `rest` ends in the middle of a line. */
  predicate Whole(held: Held, rest: seq<Event>)
    decreases |rest|
  {
    rest == [] ||
    (&& WholeSection(held, rest[0])
     && (After(held, rest[0]).Some? ==> Whole(After(held, rest[0]).value, rest[1..])))
  }

  lemma {:induction false} WholeMore(held: Held, script: seq<Event>, e: Event)
    requires Whole(held, script) && Holding(held, script).Some? && WholeSection(Holding(held, script).value, e)
    ensures Whole(held, script + [e])
    decreases |script|
  {
    var all := script + [e];
    if script == [] {
      assert all[1..] == [];
    } else {
      assert all[0] == script[0] && all[1..] == script[1..] + [e];
      WholeMore(After(held, script[0]).value, script[1..], e);
    }
  }

  // ---------------------------------------------------------------- interleavings

  // What one audit section wrote, and who.
  datatype Finished = Finished(writer: Thread, text: string)

  // `held`, `finished` and `acquisitions` record what has happened; they do not influence what can happen.
  datatype State = State(
    rest: map<Thread, seq<Event>>,
    owner: map<Lock, Thread>,
    log: string,
    held: map<Thread, Held>,
    finished: seq<Finished>,
    acquisitions: seq<Thread>)  // who took the audit lock, in order

  /** A thread can take its next step unless it waits for a lock that is taken. */
  predicate CanStep(s: State, t: Thread) {
    && t in s.rest && t in s.held && s.rest[t] != []
    && (s.rest[t][0].Acquire? ==> s.rest[t][0].lock !in s.owner)
  }

  function Written(held: Held): string {
    if held.TheLog? then held.written else ""
  }

  function Step(s: State, t: Thread): State
    requires CanStep(s, t)
  {
    var e := s.rest[t][0];
    var after := After(s.held[t], e);
    var held := if after.Some? then after.value else s.held[t];
    var next := s.(rest := s.rest[t := s.rest[t][1..]], held := s.held[t := held]);
    match e
    case Acquire(lock) =>
      next.(owner := s.owner[lock := t], acquisitions := s.acquisitions + if lock.AuditLock? then [t] else [])
    case Release(lock) =>
      next.(owner := s.owner - {lock},
            finished := s.finished + if lock.AuditLock? then [Finished(t, Written(s.held[t]))] else [])
    case Write(piece) => next.(log := s.log + piece)
    case _ => next
  }

  ghost predicate AllDisciplined(scripts: map<Thread, seq<Event>>) {
    forall t <- scripts :: Disciplined(Nothing, scripts[t])
  }

  ghost predicate Init(s: State) {
    && s.owner == map[] && s.log == "" && s.finished == [] && s.acquisitions == []
    && s.held.Keys == s.rest.Keys
    && AllDisciplined(s.rest)
    && forall t <- s.rest :: s.held[t] == Nothing
  }

  ghost predicate Stepped(s: State, next: State) {
    exists t :: CanStep(s, t) && next == Step(s, t)
  }

  ghost predicate IsRun(run: seq<State>) {
    && |run| > 0
    && Init(run[0])
    && forall k | 0 < k < |run| :: Stepped(run[k - 1], run[k])
  }

  /** Threads with these scripts, none of them begun. */
  function Start(scripts: map<Thread, seq<Event>>): State {
    State(scripts, map[], "", map t | t in scripts :: Nothing, [], [])
  }

  ghost predicate AllWhole(scripts: map<Thread, seq<Event>>) {
    forall t <- scripts :: Whole(Nothing, scripts[t])
  }

  /** One thread's script has grown, the others' have not. */
  lemma OneScriptMore(scripts: map<Thread, seq<Event>>, t: Thread, script: seq<Event>)
    requires AllDisciplined(scripts) && Disciplined(Nothing, script)
    ensures AllDisciplined(scripts[t := script])
    ensures AllWhole(scripts) && Whole(Nothing, script) ==> AllWhole(scripts[t := script])
  {
  }

  // ---------------------------------------------------------------- the invariant

  predicate Holds(held: Held, lock: Lock) {
    if lock.StoreLock? then held.TheStore? else held.TheLog?
  }

  function Concat(finished: seq<Finished>): string {
    if finished == [] then "" else Concat(finished[..|finished| - 1]) + finished[|finished| - 1].text
  }

  function Writers(finished: seq<Finished>): seq<Thread> {
    seq(|finished|, k requires 0 <= k < |finished| => finished[k].writer)
  }

  /** What the thread in the audit section, if there is one, has written so far. */
  function Partial(s: State): string {
    if AuditLock in s.owner && s.owner[AuditLock] in s.held then Written(s.held[s.owner[AuditLock]]) else ""
  }

  function Current(s: State): seq<Thread> {
    if AuditLock in s.owner then [s.owner[AuditLock]] else []
  }

  /** The mutexes and what the threads hold say the same. */
  ghost predicate OwnersOk(owner: map<Lock, Thread>, held: map<Thread, Held>) {
    && (forall lock <- owner :: owner[lock] in held)
    && forall t <- held, lock :: Holds(held[t], lock) <==> lock in owner && owner[lock] == t
  }

  ghost predicate ThreadsOk(s: State) {
    && s.held.Keys == s.rest.Keys
    && (forall t <- s.rest :: Disciplined(s.held[t], s.rest[t]))
    && OwnersOk(s.owner, s.held)
  }

  ghost predicate LogOk(s: State) {
    && s.log == Concat(s.finished) + Partial(s)
    && s.acquisitions == Writers(s.finished) + Current(s)
  }

  lemma Taken(owner: map<Lock, Thread>, held: map<Thread, Held>, t: Thread, lock: Lock, after: Held)
    requires OwnersOk(owner, held) && t in held && lock !in owner && held[t].Nothing?
    requires forall l :: Holds(after, l) <==> l == lock
    ensures OwnersOk(owner[lock := t], held[t := after])
  {
  }

  lemma Freed(owner: map<Lock, Thread>, held: map<Thread, Held>, t: Thread, lock: Lock)
    requires OwnersOk(owner, held) && t in held && Holds(held[t], lock)
    ensures OwnersOk(owner - {lock}, held[t := Nothing])
  {
    var after := held[t := Nothing];
    assert lock in owner && owner[lock] == t;
    forall u, l | u in after ensures Holds(after[u], l) <==> l in owner - {lock} && owner[l] == u {
      assert Holds(held[u], l) <==> l in owner && owner[l] == u;
      assert Holds(held[u], lock) <==> owner[lock] == u;
    }
  }

  lemma Unmoved(owner: map<Lock, Thread>, held: map<Thread, Held>, t: Thread, after: Held)
    requires OwnersOk(owner, held) && t in held
    requires forall l :: Holds(after, l) <==> Holds(held[t], l)
    ensures OwnersOk(owner, held[t := after])
  {
  }

  lemma StepOwners(owner: map<Lock, Thread>, held: map<Thread, Held>, t: Thread, e: Event)
    requires OwnersOk(owner, held) && t in held && After(held[t], e).Some?
    requires e.Acquire? ==> e.lock !in owner
    ensures OwnersOk(if e.Acquire? then owner[e.lock := t] else if e.Release? then owner - {e.lock} else owner,
                     held[t := After(held[t], e).value])
  {
    var after := After(held[t], e).value;
    match e
    case Acquire(lock) => Taken(owner, held, t, lock, after);
    case Release(lock) => Freed(owner, held, t, lock);
    case _ => Unmoved(owner, held, t, after);
  }

  lemma StepThreads(s: State, t: Thread)
    requires ThreadsOk(s) && CanStep(s, t)
    ensures After(s.held[t], s.rest[t][0]).Some? && ThreadsOk(Step(s, t))
  {
    var e := s.rest[t][0];
    assert Disciplined(s.held[t], s.rest[t]);
    var after := After(s.held[t], e).value;
    assert Disciplined(after, s.rest[t][1..]);
    StepOwners(s.owner, s.held, t, e);
  }

  lemma AcquireLog(s: State, t: Thread)
    requires OwnersOk(s.owner, s.held) && LogOk(s) && CanStep(s, t)
    requires s.rest[t][0].Acquire? && After(s.held[t], s.rest[t][0]).Some?
    ensures LogOk(Step(s, t))
  {
    assert s.acquisitions + [] == s.acquisitions;
    assert !Holds(s.held[t], AuditLock);
  }

  lemma Closed(finished: seq<Finished>, f: Finished)
    ensures Concat(finished + [f]) == Concat(finished) + f.text
    ensures Concat(finished) + f.text + "" == Concat(finished) + f.text
    ensures Writers(finished + [f]) + [] == Writers(finished) + [f.writer]
  {
    assert (finished + [f])[..|finished|] == finished;
  }

  lemma ReleaseLog(s: State, t: Thread)
    requires OwnersOk(s.owner, s.held) && LogOk(s) && CanStep(s, t)
    requires s.rest[t][0].Release? && After(s.held[t], s.rest[t][0]).Some?
    ensures LogOk(Step(s, t))
  {
    assert Holds(s.held[t], s.rest[t][0].lock);
    if s.rest[t][0].lock.StoreLock? {
      assert s.finished + [] == s.finished;
      assert !Holds(s.held[t], AuditLock);
    } else {
      Closed(s.finished, Finished(t, Written(s.held[t])));
    }
  }

  lemma WriteLog(s: State, t: Thread)
    requires OwnersOk(s.owner, s.held) && LogOk(s) && CanStep(s, t)
    requires s.rest[t][0].Write? && After(s.held[t], s.rest[t][0]).Some?
    ensures LogOk(Step(s, t))
  {
    assert Holds(s.held[t], AuditLock);
    assert Concat(s.finished) + Written(s.held[t]) + s.rest[t][0].piece
           == Concat(s.finished) + (Written(s.held[t]) + s.rest[t][0].piece);
  }

  lemma StepLog(s: State, t: Thread)
    requires OwnersOk(s.owner, s.held) && LogOk(s) && CanStep(s, t)
    requires After(s.held[t], s.rest[t][0]).Some?
    ensures LogOk(Step(s, t))
  {
    match s.rest[t][0]
    case Acquire(lock) => AcquireLog(s, t);
    case Release(lock) => ReleaseLog(s, t);
    case Write(piece) => WriteLog(s, t);
    case _ =>
  }

  lemma {:induction false} RunOk(run: seq<State>, k: nat)
    requires IsRun(run) && k < |run|
    ensures ThreadsOk(run[k]) && LogOk(run[k])
  {
    if k > 0 {
      RunOk(run, k - 1);
      assert Stepped(run[k - 1], run[k]);
      var t :| CanStep(run[k - 1], t) && run[k] == Step(run[k - 1], t);
      StepThreads(run[k - 1], t);
      StepLog(run[k - 1], t);
    }
  }

  /** Scripts that write whole lines leave whole lines. */
  ghost predicate LinesOk(s: State) {
    && (forall t <- s.rest :: t in s.held && Whole(s.held[t], s.rest[t]))
    && forall f <- s.finished :: f.text == "" || IsLine(f.text)
  }

  lemma StepLines(s: State, t: Thread)
    requires ThreadsOk(s) && LinesOk(s) && CanStep(s, t)
    ensures LinesOk(Step(s, t))
  {
    assert Disciplined(s.held[t], s.rest[t]) && Whole(s.held[t], s.rest[t]);
  }

  lemma FirstLines(run: seq<State>)
    requires IsRun(run) && AllWhole(run[0].rest)
    ensures LinesOk(run[0])
  {
  }

  lemma NextLines(run: seq<State>, k: nat)
    requires IsRun(run) && 0 < k < |run| && LinesOk(run[k - 1])
    ensures LinesOk(run[k])
  {
    RunOk(run, k - 1);
    assert Stepped(run[k - 1], run[k]);
    var t :| CanStep(run[k - 1], t) && run[k] == Step(run[k - 1], t);
    StepLines(run[k - 1], t);
  }

  lemma {:induction false} RunLines(run: seq<State>, k: nat)
    requires IsRun(run) && k < |run| && AllWhole(run[0].rest)
    ensures LinesOk(run[k])
  {
    if k == 0 {
      FirstLines(run);
    } else {
      RunLines(run, k - 1);
      NextLines(run, k);
    }
  }

  // ---------------------------------------------------------------- theorems

  predicate NotBoth(s: State) {
    StoreLock in s.owner && AuditLock in s.owner ==> s.owner[StoreLock] != s.owner[AuditLock]
  }

  ghost predicate Unfinished(s: State) {
    exists t <- s.rest :: s.rest[t] != []
  }

  /** No thread ever holds both locks. */
  lemma NeverBoth(run: seq<State>, k: nat)
    requires IsRun(run) && k < |run|
    ensures NotBoth(run[k])
  {
    RunOk(run, k);
  }

  /** As long as any thread is not done, some thread can take a step: nobody waits in a cycle. */
  lemma NoDeadlock(run: seq<State>, k: nat, unfinished: Thread) returns (t: Thread)
    requires IsRun(run) && k < |run|
    requires unfinished in run[k].rest && run[k].rest[unfinished] != []
    ensures CanStep(run[k], t)
  {
    RunOk(run, k);
    var s := run[k];
    t := unfinished;
    if !CanStep(s, unfinished) {
      t := s.owner[s.rest[unfinished][0].lock];
      assert Disciplined(s.held[t], s.rest[t]);
    }
  }

  /** The texts of the sections that wrote something. */
  function Lines(finished: seq<Finished>): seq<string> {
    if finished == [] then []
    else
      var front, last := Lines(finished[..|finished| - 1]), finished[|finished| - 1].text;
      if last == "" then front else front + [last]
  }

  predicate Ends(s: string) {
    s != "" && s[|s| - 1] == '\n'
  }

  /** A reader of the log: cut after each newline. */
  function Cut(log: string): seq<string> {
    if log == "" then []
    else
      var rest := Cut(log[..|log| - 1]);
      var last := log[|log| - 1];
      if rest == [] || Ends(rest[|rest| - 1]) then rest + [[last]]
      else rest[..|rest| - 1] + [rest[|rest| - 1] + [last]]
  }

  lemma {:induction false} CutPart(lines: string, part: string)
    requires '\n' !in part && part != ""
    requires Cut(lines) == [] || Ends(Cut(lines)[|Cut(lines)| - 1])
    ensures Cut(lines + part) == Cut(lines) + [part]
    decreases |part|
  {
    var front, last := part[..|part| - 1], part[|part| - 1];
    assert (lines + part)[..|lines + part| - 1] == lines + front;
    assert part == front + [last] && last in part;
    if front == "" {
      assert lines + front == lines;
    } else {
      CutPart(lines, front);
      assert !Ends(front) by { assert front[|front| - 1] in part; }
    }
  }

  lemma CutLine(lines: string, line: string)
    requires IsLine(line)
    requires Cut(lines) == [] || Ends(Cut(lines)[|Cut(lines)| - 1])
    ensures Cut(lines + line) == Cut(lines) + [line]
  {
    var front := line[..|line| - 1];
    assert (lines + line)[..|lines + line| - 1] == lines + front;
    assert line == front + ['\n'];
    if front == "" {
      assert lines + front == lines;
    } else {
      CutPart(lines, front);
      assert !Ends(front) by { assert front[|front| - 1] in front; }
    }
  }

  lemma {:induction false} CutConcat(finished: seq<Finished>)
    requires forall f <- finished :: f.text == "" || IsLine(f.text)
    ensures Cut(Concat(finished)) == Lines(finished)
    ensures Lines(finished) == [] || Ends(Lines(finished)[|Lines(finished)| - 1])
  {
    if finished != [] {
      var front, last := finished[..|finished| - 1], finished[|finished| - 1];
      CutConcat(front);
      if last.text == "" {
        assert Concat(front) + last.text == Concat(front);
      } else {
        CutLine(Concat(front), last.text);
      }
    }
  }

  /** However threads interleave: whenever the audit lock is free, the log is exactly what its sections have
      written, one after another in the order the lock was taken. */
  lemma SectionsInOrder(run: seq<State>, k: nat)
    requires IsRun(run) && k < |run| && AuditLock !in run[k].owner
    ensures run[k].log == Concat(run[k].finished)
    ensures Writers(run[k].finished) == run[k].acquisitions
  {
    RunOk(run, k);
    assert Concat(run[k].finished) + "" == Concat(run[k].finished);
  }

  /** And if no write fails, so that no section leaves part of a record: the log is whole records, however many
      writes each has taken, and a reader that cuts it at newlines finds exactly those records. */
  lemma WholeLinesInOrder(run: seq<State>, k: nat)
    requires IsRun(run) && k < |run| && AuditLock !in run[k].owner && AllWhole(run[0].rest)
    ensures Cut(run[k].log) == Lines(run[k].finished)
    ensures forall f <- run[k].finished :: f.text == "" || IsLine(f.text)
  {
    SectionsInOrder(run, k);
    RunLines(run, k);
    CutConcat(run[k].finished);
  }
}
