/** What the gateway's threads have done with the two locks, event by event, as its methods do it. */
module LockScripts {
  import opened Wrappers
  import opened LockDiscipline

  type Script = seq<Event>

  const TAKE_STORE := Acquire(StoreLock)
  const DROP_STORE := Release(StoreLock)
  const TAKE_LOG := Acquire(AuditLock)
  const DROP_LOG := Release(AuditLock)

  // The administrator's commands run in one thread, each agent call in one of its own.
  const ADMIN: Thread := 0

  function CallThread(id: nat): Thread {
    id + 1
  }

  // ---------------------------------------------------------------- what the threads have done with the locks

  /** What each thread has done with the locks so far; `torn` when a write to the log has failed. */
  datatype Threads = Threads(scripts: map<Thread, Script>, torn: bool)

  function ScriptOf(threads: Threads, t: Thread): Script {
    if t in threads.scripts then threads.scripts[t] else []
  }

  function Did(threads: Threads, t: Thread, e: Event): Threads {
    threads.(scripts := threads.scripts[t := ScriptOf(threads, t) + [e]])
  }

  function HeldBy(threads: Threads, t: Thread): Option<Held> {
    Holding(Nothing, ScriptOf(threads, t))
  }

  /** No thread is in a lock section, and none has done anything with a lock it should not have done. */
  ghost predicate Free(threads: Threads) {
    && AllDisciplined(threads.scripts)
    && (!threads.torn ==> AllWhole(threads.scripts))
  }

  /** Thread `t` has come from `start`, where all were free, into a section in which it holds `held`. */
  ghost predicate Inside(start: Threads, threads: Threads, t: Thread, held: Held) {
    && Free(start) && threads.torn == start.torn
    && threads.scripts == start.scripts[t := ScriptOf(threads, t)]
    && HeldBy(threads, t) == Some(held)
    && (!threads.torn ==> Whole(Nothing, ScriptOf(threads, t)))
  }

  lemma FreeIsInside(threads: Threads, t: Thread)
    requires Free(threads)
    ensures Inside(threads, threads.(scripts := threads.scripts[t := ScriptOf(threads, t)]), t, Nothing)
  {
  }

  lemma DidInside(start: Threads, threads: Threads, t: Thread, held: Held, e: Event)
    requires Inside(start, threads, t, held)
    requires After(held, e).Some? && (threads.torn || WholeSection(held, e))
    ensures Inside(start, Did(threads, t, e), t, After(held, e).value)
  {
    var script := ScriptOf(threads, t);
    HoldingMore(Nothing, script, e);
    if !threads.torn {
      WholeMore(Nothing, script, e);
    }
  }

  lemma OutsideAgain(start: Threads, threads: Threads, t: Thread)
    requires Inside(start, threads, t, Nothing)
    ensures Free(threads)
  {
    OneScriptMore(start.scripts, t, ScriptOf(threads, t));
  }

  /** After a write that failed, nothing is promised about whole lines any more. */
  lemma Torn(start: Threads, threads: Threads, t: Thread, held: Held)
    requires Inside(start, threads, t, held)
    ensures Inside(start.(torn := true), threads.(torn := true), t, held)
  {
  }

  /** All that has been done in between is this, by this thread. */
  ghost predicate OnlyDid(before: Threads, after: Threads, t: Thread, events: Script) {
    && ScriptOf(after, t) == ScriptOf(before, t) + events
    && forall other: Thread | other != t :: ScriptOf(after, other) == ScriptOf(before, other)
  }

  /** The store lock was taken, the store used, the lock given back. */
  ghost predicate UsedStoreLocked(before: Threads, after: Threads, t: Thread) {
    OnlyDid(before, after, t, [Acquire(StoreLock), UseStore, Release(StoreLock)]) && after.torn == before.torn
  }

  /** The log's lock was taken, this written, the lock given back. */
  ghost predicate WroteLocked(before: Threads, after: Threads, t: Thread, piece: string) {
    OnlyDid(before, after, t, [Acquire(AuditLock), Write(piece), Release(AuditLock)])
  }

  lemma DidThree(threads: Threads, t: Thread, a: Event, b: Event, c: Event)
    ensures OnlyDid(threads, Did(Did(Did(threads, t, a), t, b), t, c), t, [a, b, c])
  {
    assert ScriptOf(threads, t) + [a] + [b] + [c] == ScriptOf(threads, t) + [a, b, c];
  }

  /** A section of the store, as its events come one after the other. */
  lemma StoreSection(threads: Threads, t: Thread)
    requires Free(threads)
    ensures var taken := Did(threads, t, TAKE_STORE);
            var used := Did(taken, t, UseStore);
            && HeldBy(taken, t) == Some(TheStore)
            && Free(Did(used, t, DROP_STORE))
  {
    var start := threads.(scripts := threads.scripts[t := ScriptOf(threads, t)]);
    FreeIsInside(threads, t);
    assert Did(start, t, TAKE_STORE) == Did(threads, t, TAKE_STORE);
    DidInside(threads, start, t, Nothing, TAKE_STORE);
    var taken := Did(threads, t, TAKE_STORE);
    DidInside(threads, taken, t, TheStore, UseStore);
    var used := Did(taken, t, UseStore);
    DidInside(threads, used, t, TheStore, DROP_STORE);
    OutsideAgain(threads, Did(used, t, DROP_STORE), t);
  }

  /** A section of the log in which `piece` is written; it is torn unless that is a whole line or nothing. */
  lemma LogSection(threads: Threads, t: Thread, piece: string)
    requires Free(threads)
    ensures var taken := Did(threads, t, TAKE_LOG);
            var written := Did(taken, t, Write(piece));
            var whole := piece == "" || IsLine(piece);
            Free(Did(written, t, DROP_LOG).(torn := threads.torn || !whole))
  {
    var start := threads.(scripts := threads.scripts[t := ScriptOf(threads, t)]);
    FreeIsInside(threads, t);
    assert Did(start, t, TAKE_LOG) == Did(threads, t, TAKE_LOG);
    DidInside(threads, start, t, Nothing, TAKE_LOG);
    var taken := Did(threads, t, TAKE_LOG);
    DidInside(threads, taken, t, TheLog(""), Write(piece));
    var written := Did(taken, t, Write(piece));
    assert "" + piece == piece;
    if piece == "" || IsLine(piece) {
      DidInside(threads, written, t, TheLog(piece), DROP_LOG);
      OutsideAgain(threads, Did(written, t, DROP_LOG), t);
      assert Did(written, t, DROP_LOG).(torn := threads.torn) == Did(written, t, DROP_LOG);
    } else {
      Torn(threads, written, t, TheLog(piece));
      DidInside(threads.(torn := true), written.(torn := true), t, TheLog(piece), DROP_LOG);
      OutsideAgain(threads.(torn := true), Did(written.(torn := true), t, DROP_LOG), t);
      assert Did(written.(torn := true), t, DROP_LOG) == Did(written, t, DROP_LOG).(torn := true);
    }
  }

  lemma NoSection(threads: Threads, t: Thread)
    requires Free(threads)
    ensures Free(Did(threads, t, Other))
  {
    var start := threads.(scripts := threads.scripts[t := ScriptOf(threads, t)]);
    FreeIsInside(threads, t);
    assert Did(start, t, Other) == Did(threads, t, Other);
    DidInside(threads, start, t, Nothing, Other);
    OutsideAgain(threads, Did(threads, t, Other), t);
  }

  /** Scripts of which all is allowed are a start from which no interleaving goes wrong. */
  lemma ScriptsStart(threads: Threads)
    requires Free(threads)
    ensures Init(Start(threads.scripts))
    ensures !threads.torn ==> AllWhole(Start(threads.scripts).rest)
  {
  }
}
