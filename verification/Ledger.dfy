/** The step ledger of src/instance.rs (cluster mode) and the retry loop of src/dag.rs around it.
    What the ledger promises is stated over traces of ledger events, in which a crash may follow
    any event; the executor's methods only ever emit legal traces. */
module Ledger {
  import opened Graph

  /** One ledger entry: node, position of the step in the node, and the step's own content
      (the source keeps a digest of it). The task is fixed. */
  datatype Key = Key(node: NodeId, index: nat, step: Step)

  datatype Event =
    | Refused(key: Key)          // StepBegin could not be registered: nothing is executed
    | Hit(key: Key)              // StepBegin answered "already done": nothing is executed
    | Begin(key: Key)            // StepBegin applied
    | Effect(key: Key)           // the side effect is carried out
    | LateEffect(key: Key)       // the command of an abandoned attempt carries it out after all
    | Proposed(key: Key)         // StepDone handed to the consensus layer
    | Recorded(key: Key)         // StepDone applied: at once, later, or (no such event) never
    | End(key: Key, ok: bool)    // the attempt returns; not ok covers errors and timeouts
    | Try(node: NodeId)          // an attempt at a whole node begins
    | Did(key: Key, ok: bool)    // a step of that attempt, in the ledger or not, has returned
    | Crash                      // the process dies; only what was recorded survives

  type Trace = seq<Event>

  /** `open` holds the attempts in progress and whether they have had their side effect, `sent` the
      completions handed to the consensus layer, which may apply them at any later moment, and `loose`
      the attempts that were given up or cut off before their side effect: nothing stops the command
      they have started, so it may take effect at any later moment, even after a crash. */
  datatype State = State(done: set<Key>, open: map<Key, bool>, sent: set<Key>, loose: multiset<Key>)

  const FRESH := State({}, map[], {}, multiset{})

  function Abandoned(s: State): set<Key> {
    set k | k in s.open && !s.open[k]
  }

  function After(s: State, e: Event): State {
    match e
    case Refused(_) | Hit(_) | Try(_) | Did(_, _) => s
    case Begin(k) => s.(open := s.open[k := false])
    case Effect(k) => s.(open := s.open[k := true])
    case LateEffect(k) => s.(loose := s.loose - multiset{k})
    case Proposed(k) => s.(sent := s.sent + {k})
    case Recorded(k) => s.(done := s.done + {k})
    case End(k, ok) =>
      State(s.done, s.open - {k}, s.sent, if !ok && k in Abandoned(s) then s.loose + multiset{k} else s.loose)
    case Crash => State(s.done, map[], s.sent, s.loose + multiset(Abandoned(s)))
  }

  predicate Allowed(s: State, e: Event) {
    match e
    case Refused(k) => k !in s.open
    case Hit(k) => k !in s.open && k in s.done
    case Begin(k) => k !in s.open && k !in s.done
    case Effect(k) => k in s.open && !s.open[k]
    case LateEffect(k) => k in s.loose
    case Proposed(k) => k in s.open && s.open[k]
    case Recorded(k) => k in s.sent
    case End(k, ok) => k in s.open && (ok ==> k in s.done)
    case Try(_) | Did(_, _) | Crash => true
  }

  function Fold(tr: Trace): State {
    if tr == [] then FRESH else After(Fold(tr[..|tr| - 1]), tr[|tr| - 1])
  }

  predicate Legal(tr: Trace) {
    tr == [] || (Legal(tr[..|tr| - 1]) && Allowed(Fold(tr[..|tr| - 1]), tr[|tr| - 1]))
  }

  /** How often the side effect of `k` was carried out. */
  function Effects(tr: Trace, k: Key): nat {
    if tr == [] then 0
    else Effects(tr[..|tr| - 1], k) + if tr[|tr| - 1] in {Effect(k), LateEffect(k)} then 1 else 0
  }

  /** How often an attempt at `k` failed, timed out or was cut off by a crash. */
  function Setbacks(tr: Trace, k: Key): nat {
    if tr == [] then 0
    else
      var before, e := tr[..|tr| - 1], tr[|tr| - 1];
      Setbacks(before, k)
      + if e == End(k, false) || (e == Crash && k in Fold(before).open) then 1 else 0
  }

  lemma {:induction false} LegalPrefix(tr: Trace, n: nat)
    requires Legal(tr) && n <= |tr|
    ensures Legal(tr[..n])
  {
    if n < |tr| {
      assert tr[..|tr| - 1][..n] == tr[..n];
      LegalPrefix(tr[..|tr| - 1], n);
    } else {
      assert tr[..n] == tr;
    }
  }

  /** A crash may cut a run short after any event; what remains is a legal history without open
      attempts and with exactly the completions recorded and handed over so far; the commands of the
      attempts that were cut off may still be running. */
  lemma {:induction false} CrashAnywhere(tr: Trace, n: nat)
    requires Legal(tr) && n <= |tr|
    ensures Legal(tr[..n] + [Crash])
    ensures var s := Fold(tr[..n]);
      Fold(tr[..n] + [Crash]) == State(s.done, map[], s.sent, s.loose + multiset(Abandoned(s)))
  {
    LegalPrefix(tr, n);
    var crashed := tr[..n] + [Crash];
    assert crashed[..|crashed| - 1] == tr[..n];
  }

  /** Only a completion whose side effect took place is ever handed over or recorded. */
  lemma {:induction false} SentHadEffect(tr: Trace, k: Key)
    requires Legal(tr)
    ensures var s := Fold(tr);
      (k in s.done ==> k in s.sent) && (k in s.sent || (k in s.open && s.open[k]) ==> Effects(tr, k) >= 1)
  {
    if tr != [] {
      SentHadEffect(tr[..|tr| - 1], k);
    }
  }

  /** A step at which an attempt is in progress, or has been abandoned, that has not had its side effect
      yet. */
  predicate EffectAhead(s: State, k: Key) {
    k in Abandoned(s) || k in s.loose
  }

  lemma {:induction false} StaysWithoutEffect(s: State, e: Event, k: Key)
    requires Allowed(s, e) && k in s.done && !EffectAhead(s, k)
    ensures e !in {Effect(k), LateEffect(k)} && k in After(s, e).done && !EffectAhead(After(s, e), k)
  {
  }

  /** Whatever follows, a recorded step without an effect ahead gets none. */
  lemma {:induction false} NoEffectFollows(tr: Trace, rest: Trace, k: Key)
    requires Legal(tr + rest) && k in Fold(tr).done && !EffectAhead(Fold(tr), k)
    ensures Effect(k) !in rest && LateEffect(k) !in rest
    ensures k in Fold(tr + rest).done && !EffectAhead(Fold(tr + rest), k)
    decreases |rest|
  {
    hide After, Allowed, EffectAhead;
    if rest == [] {
      assert tr + rest == tr;
    } else {
      var before, e := rest[..|rest| - 1], rest[|rest| - 1];
      assert (tr + rest)[..|tr + rest| - 1] == tr + before;
      NoEffectFollows(tr, before, k);
      StaysWithoutEffect(Fold(tr + before), e, k);
      assert rest == before + [e];
    }
  }

  /** Once StepDone is recorded the side effect never runs again, across retries, crashes, resumes and
      reruns, if and only if there is no attempt, in progress or abandoned, that may still have it. */
  lemma {:induction false} NeverAgainIff(tr: Trace, k: Key)
    requires Legal(tr) && k in Fold(tr).done
    ensures (forall rest :: Legal(tr + rest) ==> Effect(k) !in rest && LateEffect(k) !in rest)
      <==> !EffectAhead(Fold(tr), k)
  {
    if EffectAhead(Fold(tr), k) {
      var e := if k in Abandoned(Fold(tr)) then Effect(k) else LateEffect(k);
      var rest := [e];
      assert (tr + rest)[..|tr + rest| - 1] == tr;
      assert Legal(tr + rest) && e in rest;
    } else {
      forall rest | Legal(tr + rest) ensures Effect(k) !in rest && LateEffect(k) !in rest {
        NoEffectFollows(tr, rest, k);
      }
    }
  }

  /** The same for two moments of one trace: a completion that is recorded while no attempt can still have
      the side effect is final. */
  lemma {:induction false} NeverAgainOnceRecorded(tr: Trace, i: nat, j: nat, k: Key)
    requires Legal(tr) && i < j < |tr| && tr[i] == Recorded(k) && !EffectAhead(Fold(tr[..i]), k)
    ensures tr[j] !in {Effect(k), LateEffect(k)}
  {
    hide Legal, Fold, EffectAhead;
    RecordedNow(tr, i, k);
    var upTo, rest := tr[..i + 1], tr[i + 1..];
    assert tr == upTo + rest;
    NoEffectFollows(upTo, rest, k);
    assert rest[j - i - 1] == tr[j];
  }

  lemma {:induction false} RecordedNow(tr: Trace, i: nat, k: Key)
    requires Legal(tr) && i < |tr| && tr[i] == Recorded(k) && !EffectAhead(Fold(tr[..i]), k)
    ensures k in Fold(tr[..i + 1]).done && !EffectAhead(Fold(tr[..i + 1]), k)
  {
    LegalPrefix(tr, i + 1);
    assert tr[..i + 1][..i] == tr[..i];
  }

  /** How many of the effects a setback has not paid for yet. */
  function Unpaid(s: State, k: Key): nat {
    if k in s.open then (if s.open[k] then 1 else 0) else if k in s.done then 1 else 0
  }

  lemma {:induction false} StepAccounts(s: State, e: Event, k: Key)
    requires Allowed(s, e)
    ensures (if e in {Effect(k), LateEffect(k)} then 1 else 0) + After(s, e).loose[k] + Unpaid(s, k)
      <= (if e == End(k, false) || (e == Crash && k in s.open) then 1 else 0) + s.loose[k] + Unpaid(After(s, e), k)
  {
  }

  /** Accounting: the side effect runs at most once more than there were setbacks, late effects included,
      and a recorded step has run at least once. Without setbacks a recorded step has run exactly once. */
  lemma {:induction false} EffectAccounting(tr: Trace, k: Key)
    requires Legal(tr)
    ensures Effects(tr, k) + Fold(tr).loose[k] <= Setbacks(tr, k) + Unpaid(Fold(tr), k)
    ensures k in Fold(tr).done || (k in Fold(tr).open && Fold(tr).open[k]) ==> Effects(tr, k) >= 1
    ensures k in Fold(tr).done && Setbacks(tr, k) == 0 ==> Effects(tr, k) == 1
  {
    hide Allowed, After, Unpaid;
    SentHadEffect(tr, k);
    assert Unpaid(FRESH, k) == 0 by {
      NothingUnpaid(k);
    }
    if tr != [] {
      EffectAccounting(tr[..|tr| - 1], k);
      StepAccounts(Fold(tr[..|tr| - 1]), tr[|tr| - 1], k);
    }
    AtMostOneUnpaid(Fold(tr), k);
  }

  lemma {:induction false} NothingUnpaid(k: Key)
    ensures Unpaid(FRESH, k) == 0
  {
  }

  lemma {:induction false} AtMostOneUnpaid(s: State, k: Key)
    ensures Unpaid(s, k) <= 1
  {
  }

  lemma {:induction false} DoneGrows(tr: Trace, rest: Trace)
    ensures Fold(tr).done <= Fold(tr + rest).done
    decreases |rest|
  {
    if rest == [] {
      assert tr + rest == tr;
    } else {
      assert (tr + rest)[..|tr + rest| - 1] == tr + rest[..|rest| - 1];
      DoneGrows(tr, rest[..|rest| - 1]);
    }
  }

  // ----- The executor -----

  /** Container creation and removal and SQL go through the ledger; other steps do not. */
  predicate Ledgered(step: Step) {
    step.DockerRun? || step.DockerRm? || step.ExecSql?
  }

  function KeyOf(n: TaskNode, i: nat): Key
    requires i < |n.steps|
  {
    Key(n.id, i, n.steps[i])
  }

  /** Every ledgered step of the node is recorded done. */
  predicate AllRecorded(n: TaskNode, done: set<Key>) {
    forall i :: 0 <= i < |n.steps| && Ledgered(n.steps[i]) ==> KeyOf(n, i) in done
  }

  // ----- The steps of a node -----

  predicate IsStepOf(e: Event, id: NodeId) {
    (e.Try? && e.node == id) || (e.Did? && e.key.node == id)
  }

  /** The attempts at a node and the steps they carried out, in order. */
  ghost function StepEvents(tr: Trace, id: NodeId): Trace {
    if tr == [] then []
    else StepEvents(tr[..|tr| - 1], id) + if IsStepOf(tr[|tr| - 1], id) then [tr[|tr| - 1]] else []
  }

  /** An attempt that carries out one step after the other, with the outcomes `x`. */
  ghost function OneTry(n: TaskNode, x: seq<bool>): Trace
    requires |x| <= |n.steps|
  {
    [Try(n.id)] + seq(|x|, i requires 0 <= i < |x| => Did(KeyOf(n, i), x[i]))
  }

  ghost function Tries(n: TaskNode, log: seq<seq<bool>>): Trace
    requires forall x :: x in log ==> |x| <= |n.steps|
  {
    if log == [] then [] else Tries(n, log[..|log| - 1]) + OneTry(n, log[|log| - 1])
  }

  /** The attempt ended at its first failing step. */
  predicate Broken(n: TaskNode, x: seq<bool>) {
    0 < |x| <= |n.steps| && !x[|x| - 1] && forall j :: 0 <= j < |x| - 1 ==> x[j]
  }

  /** The attempt carried out every step, each with success. */
  predicate Through(n: TaskNode, x: seq<bool>) {
    |x| == |n.steps| && forall j :: 0 <= j < |x| ==> x[j]
  }

  /** What a node that is run does: attempts that break off, and if it succeeds, one that goes through. */
  predicate RunLog(n: TaskNode, log: seq<seq<bool>>, ok: bool) {
    && |log| > 0 && (forall a :: 0 <= a < |log| - 1 ==> Broken(n, log[a]))
    && if ok then Through(n, log[|log| - 1]) else Broken(n, log[|log| - 1])
  }

  /** The node's latest events are `attempts` attempts that ended with `ok`. */
  ghost predicate Performed(tr: Trace, n: TaskNode, attempts: nat, ok: bool) {
    exists log, p: nat ::
      && p <= |StepEvents(tr, n.id)| && |log| == attempts && RunLog(n, log, ok)
      && (forall x :: x in log ==> |x| <= |n.steps|) && StepEvents(tr, n.id)[p..] == Tries(n, log)
  }

  /** At some moment the node had just been run with success. */
  ghost predicate Completed(tr: Trace, n: TaskNode) {
    exists q: nat, attempts: nat :: q <= |tr| && Performed(tr[..q], n, attempts, true)
  }

  lemma {:induction false} StepEventsSplit(a: Trace, b: Trace, id: NodeId)
    ensures StepEvents(a + b, id) == StepEvents(a, id) + StepEvents(b, id)
    decreases |b|
  {
    if b == [] {
      assert a + b == a;
    } else {
      assert (a + b)[..|a + b| - 1] == a + b[..|b| - 1];
      StepEventsSplit(a, b[..|b| - 1], id);
    }
  }

  lemma {:induction false} StepEventsAreThere(tr: Trace, id: NodeId, e: Event)
    requires e in StepEvents(tr, id)
    ensures e in tr
  {
    if tr[|tr| - 1] != e {
      StepEventsAreThere(tr[..|tr| - 1], id, e);
    }
  }

  lemma {:induction false} QuietHasNone(tr: Trace, id: NodeId)
    requires Quiet(tr)
    ensures StepEvents(tr, id) == []
  {
    if tr != [] {
      assert forall e :: e in tr[..|tr| - 1] ==> e in tr;
      QuietHasNone(tr[..|tr| - 1], id);
    }
  }

  /** No attempt at a node begins and no step returns. */
  predicate Quiet(tr: Trace) {
    forall e :: e in tr ==> !e.Try? && !e.Did?
  }

  lemma {:induction false} LastTryDidAll(n: TaskNode, log: seq<seq<bool>>, i: nat)
    requires RunLog(n, log, true) && (forall x :: x in log ==> |x| <= |n.steps|) && i < |n.steps|
    ensures Did(KeyOf(n, i), true) in Tries(n, log)
  {
    hide KeyOf;
    var init, last := log[..|log| - 1], OneTry(n, log[|log| - 1]);
    assert last[i + 1] == Did(KeyOf(n, i), true);
    assert Tries(n, log) == Tries(n, init) + last;
    assert Tries(n, log)[|Tries(n, init)| + i + 1] == last[i + 1];
  }

  /** The last attempt of a successful run has carried out every step. */
  lemma {:induction false} CompletedDidAll(tr: Trace, n: TaskNode, i: nat)
    requires Completed(tr, n) && i < |n.steps|
    ensures Did(KeyOf(n, i), true) in tr
  {
    hide StepEvents, Tries, RunLog, KeyOf;
    var q: nat, attempts: nat :| q <= |tr| && Performed(tr[..q], n, attempts, true);
    var events := StepEvents(tr[..q], n.id);
    var log, p: nat :| p <= |events| && |log| == attempts && RunLog(n, log, true)
      && (forall x :: x in log ==> |x| <= |n.steps|) && events[p..] == Tries(n, log);
    LastTryDidAll(n, log, i);
    var e := Did(KeyOf(n, i), true);
    assert e in events[p..];
    assert e in events;
    StepEventsAreThere(tr[..q], n.id, e);
  }

  lemma {:induction false} PerformedIsCompleted(tr: Trace, n: TaskNode, attempts: nat)
    requires Performed(tr, n, attempts, true)
    ensures Completed(tr, n)
  {
    assert tr[..|tr|] == tr;
  }

  lemma {:induction false} CompletedStays(tr: Trace, rest: Trace, n: TaskNode, m: TaskNode)
    requires Completed(tr, n) && m.id == n.id && m.steps == n.steps
    ensures Completed(tr + rest, m)
  {
    var q: nat, attempts: nat :| q <= |tr| && Performed(tr[..q], n, attempts, true);
    assert (tr + rest)[..q] == tr[..q];
    SamePerformance(tr[..q], n, m, attempts, true);
  }

  lemma {:induction false} SamePerformance(tr: Trace, n: TaskNode, m: TaskNode, attempts: nat, ok: bool)
    requires Performed(tr, n, attempts, ok) && m.id == n.id && m.steps == n.steps
    ensures Performed(tr, m, attempts, ok)
  {
    var log, p: nat :| p <= |StepEvents(tr, n.id)| && |log| == attempts && RunLog(n, log, ok)
      && (forall x :: x in log ==> |x| <= |n.steps|) && StepEvents(tr, n.id)[p..] == Tries(n, log);
    SameTries(n, m, log);
    assert RunLog(m, log, ok);
  }

  lemma {:induction false} SameTries(n: TaskNode, m: TaskNode, log: seq<seq<bool>>)
    requires m.id == n.id && m.steps == n.steps && forall x :: x in log ==> |x| <= |n.steps|
    ensures Tries(m, log) == Tries(n, log)
    decreases |log|
  {
    if log != [] {
      SameTries(n, m, log[..|log| - 1]);
      assert OneTry(m, log[|log| - 1]) == OneTry(n, log[|log| - 1]);
    }
  }

  class Executor {
    // the completions recorded by the consensus state machine, and those handed to it
    var done: set<Key>
    var sent: set<Key>
    // the attempts whose commands nobody waits for any more
    var loose: multiset<Key>
    ghost var trace: Trace

    ghost predicate Valid()
      reads this
    {
      Legal(trace) && Fold(trace) == State(done, map[], sent, loose)
    }

    constructor ()
      ensures Valid() && done == {} && trace == []
    {
      done, sent, loose, trace := {}, {}, multiset{}, [];
    }

    ghost method Emit(e: Event)
      requires Legal(trace) && Allowed(Fold(trace), e)
      modifies this`trace
      ensures trace == old(trace) + [e]
      ensures Legal(trace) && Fold(trace) == After(old(Fold(trace)), e)
    {
      trace := trace + [e];
      assert trace[..|trace| - 1] == old(trace);
    }

    /** The process dies. */
    method Crash()
      requires Valid()
      modifies this`trace
      ensures Valid() && trace == old(trace) + [Event.Crash]
    {
      Emit(Event.Crash);
    }

    /** What happens on the side: the consensus layer applies some of the completions handed to it, and
        some of the abandoned commands take effect. */
    method Deliver(ghost open: map<Key, bool>)
      requires Legal(trace) && Fold(trace) == State(done, open, sent, loose)
      modifies this`done, this`loose, this`trace
      ensures Legal(trace) && Fold(trace) == State(done, open, sent, loose)
      ensures old(done) <= done <= old(done) + sent && loose <= old(loose)
      ensures old(trace) <= trace && Quiet(trace[|old(trace)|..])
    {
      hide Legal, Fold;
      var more: bool := *;
      while more && (sent - done != {} || loose != multiset{})
        invariant Legal(trace) && Fold(trace) == State(done, open, sent, loose)
        invariant old(done) <= done <= old(done) + sent && loose <= old(loose)
        invariant old(trace) <= trace && Quiet(trace[|old(trace)|..])
        decreases sent - done, loose
      {
        var record: bool := *;
        if loose == multiset{} || (sent - done != {} && record) {
          Record(open);
        } else {
          TakeEffect(open);
        }
        more := *;
      }
    }

    method Record(ghost open: map<Key, bool>)
      requires Legal(trace) && Fold(trace) == State(done, open, sent, loose) && sent - done != {}
      modifies this`done, this`trace
      ensures Legal(trace) && Fold(trace) == State(done, open, sent, loose)
      ensures old(done) < done <= old(done) + sent
      ensures old(trace) <= trace && Quiet(trace[|old(trace)|..])
    {
      hide Legal, Fold;
      var k :| k in sent - done;
      Emit(Recorded(k));
      done := done + {k};
    }

    method TakeEffect(ghost open: map<Key, bool>)
      requires Legal(trace) && Fold(trace) == State(done, open, sent, loose) && loose != multiset{}
      modifies this`loose, this`trace
      ensures Legal(trace) && Fold(trace) == State(done, open, sent, loose)
      ensures loose < old(loose)
      ensures old(trace) <= trace && Quiet(trace[|old(trace)|..])
    {
      hide Legal, Fold;
      var k :| k in loose;
      Emit(LateEffect(k));
      loose := loose - multiset{k};
    }

    /** One attempt at one step. Every outcome of the consensus layer, of the side effect and of the
        step timeout is possible, and completions handed over earlier may be applied meanwhile. */
    method ExecStep(n: TaskNode, i: nat) returns (ok: bool)
      requires Valid() && i < |n.steps|
      modifies this
      ensures Valid() && old(done) <= done
      ensures ok && Ledgered(n.steps[i]) ==> KeyOf(n, i) in done
      ensures forall k :: k in done - old(done) ==> k == KeyOf(n, i) || k in old(sent)
      // this step is carried out and no other
      ensures old(trace) < trace && trace[|trace| - 1] == Did(KeyOf(n, i), ok)
      ensures Quiet(trace[|old(trace)|..|trace| - 1])
      ensures !Ledgered(n.steps[i]) ==> |trace| == |old(trace)| + 1
    {
      hide Legal, Fold, KeyOf, Ledgered, Quiet;
      var k := KeyOf(n, i);
      ok := *;
      if Ledgered(n.steps[i]) {
        ok := ThroughLedger(k);
      } else {
        assert Quiet([]) by {
          NothingIsQuiet();
        }
        assert trace[|old(trace)|..] == [];
      }
      ghost var before := trace;
      Emit(Did(k, ok));
      assert trace[|old(trace)|..|trace| - 1] == before[|old(trace)|..];
    }

    lemma {:induction false} NothingIsQuiet()
      ensures Quiet([])
    {
    }

    /** A step that goes through the ledger. */
    method ThroughLedger(k: Key) returns (ok: bool)
      requires Valid()
      modifies this
      ensures Valid() && old(trace) <= trace && Quiet(trace[|old(trace)|..])
      ensures old(done) <= done <= old(done) + old(sent) + {k} && (ok ==> k in done)
    {
      hide Legal, Fold;
      Deliver(map[]);
      var registered: bool := *;
      if !registered {
        Emit(Refused(k));
        return false;
      }
      if k in done {
        Emit(Hit(k));
        return true;
      }
      ok := Attempt(k);
    }

    /** An attempt that has been registered. */
    method Attempt(k: Key) returns (ok: bool)
      requires Valid() && k !in done
      modifies this
      ensures Valid() && old(trace) <= trace && Quiet(trace[|old(trace)|..])
      ensures old(done) <= done <= old(done) + old(sent) + {k} && (ok ==> k in done)
    {
      hide Legal, Fold, Allowed, After, Quiet;
      ghost var start := trace;
      Start(k);
      ghost var begun := trace;
      Deliver(map[k := false]);
      QuietChain(start, begun, trace);
      begun := trace;
      var reachesEffect: bool := *;
      if !reachesEffect {
        GiveUp(k);
        QuietChain(start, begun, trace);
        return false;
      }
      var effectOk: bool := *;
      Carry(k, effectOk);
      QuietChain(start, begun, trace);
      begun := trace;
      Deliver(map[k := true]);
      QuietChain(start, begun, trace);
      begun := trace;
      var acknowledged: bool := *;
      ok := effectOk && acknowledged && k in done;
      Finish(k, ok);
      QuietChain(start, begun, trace);
    }

    method Start(k: Key)
      requires Valid() && k !in done
      modifies this`trace
      ensures Legal(trace) && Fold(trace) == State(done, map[k := false], sent, loose)
      ensures old(trace) <= trace && Quiet(trace[|old(trace)|..])
    {
      hide Legal, Fold;
      Emit(Begin(k));
    }

    /** The attempt fails or times out before its side effect; its command may still be running. */
    method GiveUp(k: Key)
      requires Legal(trace) && Fold(trace) == State(done, map[k := false], sent, loose)
      modifies this`trace, this`loose
      ensures Valid() && old(trace) <= trace && Quiet(trace[|old(trace)|..])
    {
      hide Legal, Fold;
      Emit(End(k, false));
      loose := loose + multiset{k};
      assert map[k := false] - {k} == map[];
    }

    /** The side effect, and the completion of a successful one handed to the consensus layer. */
    method Carry(k: Key, effectOk: bool)
      requires Legal(trace) && Fold(trace) == State(done, map[k := false], sent, loose)
      modifies this`trace, this`sent
      ensures Legal(trace) && Fold(trace) == State(done, map[k := true], sent, loose)
      ensures old(trace) <= trace && Quiet(trace[|old(trace)|..])
      ensures sent == if effectOk then old(sent) + {k} else old(sent)
    {
      hide Legal, Fold;
      Emit(Effect(k));
      if effectOk {
        Emit(Proposed(k));
        sent := sent + {k};
      }
    }

    method Finish(k: Key, ok: bool)
      requires Legal(trace) && Fold(trace) == State(done, map[k := true], sent, loose) && (ok ==> k in done)
      modifies this`trace
      ensures Valid() && old(trace) <= trace && Quiet(trace[|old(trace)|..])
    {
      hide Legal, Fold;
      Emit(End(k, ok));
      assert map[k := true] - {k} == map[];
    }

    /** One attempt at a node: the steps in order, up to the first that fails. */
    method RunOnce(n: TaskNode) returns (ok: bool, ghost x: seq<bool>)
      requires Valid()
      modifies this
      ensures Valid() && old(trace) <= trace && old(done) <= done
      ensures if ok then Through(n, x) else Broken(n, x)
      ensures StepEvents(trace, n.id) == StepEvents(old(trace), n.id) + OneTry(n, x)
      ensures ok ==> AllRecorded(n, done)
    {
      hide Legal, Fold, StepEvents, OneTry, KeyOf, Ledgered;
      ghost var start := trace;
      ok, x := true, [];
      Emit(Try(n.id));
      FirstEvent(start, n);
      var i := 0;
      while i < |n.steps| && ok
        invariant 0 <= i == |x| <= |n.steps|
        invariant Valid() && old(trace) <= trace && old(done) <= done
        invariant if ok then forall j :: 0 <= j < i ==> x[j] else Broken(n, x)
        invariant StepEvents(trace, n.id) == StepEvents(start, n.id) + OneTry(n, x)
        invariant ok ==> forall j :: 0 <= j < i && Ledgered(n.steps[j]) ==> KeyOf(n, j) in done
      {
        ghost var before := trace;
        ok := ExecStep(n, i);
        NextEvent(before, trace, n, i, ok);
        NextOutcome(n, x, ok);
        x := x + [ok];
        i := i + 1;
      }
    }

    /** The retry loop: a failed attempt is repeated while retries are left. */
    method RunNode(n: TaskNode) returns (ok: bool, attempts: nat, ghost log: seq<seq<bool>>)
      requires Valid()
      modifies this
      ensures Valid() && old(trace) <= trace && old(done) <= done
      ensures 1 <= attempts <= n.retries + 1 && (!ok ==> attempts == n.retries + 1)
      ensures ok ==> AllRecorded(n, done)
      // exactly these attempts were made, each step by step
      ensures |log| == attempts && RunLog(n, log, ok) && forall x :: x in log ==> |x| <= |n.steps|
      ensures StepEvents(trace, n.id) == StepEvents(old(trace), n.id) + Tries(n, log)
      ensures Performed(trace, n, attempts, ok)
    {
      hide Legal, Fold, StepEvents, OneTry, AllRecorded, Broken, Through, Performed;
      ghost var start := trace;
      attempts, log := 0, [];
      while true
        invariant Valid() && old(trace) <= trace && old(done) <= done
        invariant |log| == attempts <= n.retries && forall a :: 0 <= a < attempts ==> Broken(n, log[a])
        invariant forall x :: x in log ==> |x| <= |n.steps|
        invariant StepEvents(trace, n.id) == StepEvents(start, n.id) + Tries(n, log)
        decreases n.retries - attempts
      {
        attempts := attempts + 1;
        ghost var x;
        ok, x := RunOnce(n);
        MoreTries(n, log, x, ok);
        log := log + [x];
        if ok || attempts > n.retries {
          LogIsPerformance(start, trace, n, log, ok);
          return;
        }
      }
    }
  }

  lemma {:induction false} QuietChain(a: Trace, b: Trace, c: Trace)
    requires a <= b <= c && Quiet(b[|a|..]) && Quiet(c[|b|..])
    ensures Quiet(c[|a|..])
  {
    assert c[|a|..] == b[|a|..] + c[|b|..];
  }

  lemma {:induction false} FirstEvent(tr: Trace, n: TaskNode)
    ensures StepEvents(tr + [Try(n.id)], n.id) == StepEvents(tr, n.id) + OneTry(n, [])
  {
    var longer := tr + [Try(n.id)];
    assert longer[..|longer| - 1] == tr;
  }

  lemma {:induction false} NextEvent(before: Trace, tr: Trace, n: TaskNode, i: nat, ok: bool)
    requires i < |n.steps| && before < tr && tr[|tr| - 1] == Did(KeyOf(n, i), ok)
    requires Quiet(tr[|before|..|tr| - 1])
    ensures StepEvents(tr, n.id) == StepEvents(before, n.id) + [Did(KeyOf(n, i), ok)]
  {
    var init, side := tr[..|tr| - 1], tr[|before|..|tr| - 1];
    assert init == before + side;
    StepEventsSplit(before, side, n.id);
    QuietHasNone(side, n.id);
  }

  lemma {:induction false} NextOutcome(n: TaskNode, x: seq<bool>, ok: bool)
    requires |x| < |n.steps|
    ensures OneTry(n, x + [ok]) == OneTry(n, x) + [Did(KeyOf(n, |x|), ok)]
  {
  }

  lemma {:induction false} MoreTries(n: TaskNode, log: seq<seq<bool>>, x: seq<bool>, ok: bool)
    requires (forall y :: y in log ==> |y| <= |n.steps|) && if ok then Through(n, x) else Broken(n, x)
    ensures forall y :: y in log + [x] ==> |y| <= |n.steps|
    ensures Tries(n, log + [x]) == Tries(n, log) + OneTry(n, x)
  {
    var longer := log + [x];
    assert longer[..|longer| - 1] == log;
  }

  lemma {:induction false} LogIsPerformance(start: Trace, tr: Trace, n: TaskNode, log: seq<seq<bool>>, ok: bool)
    requires RunLog(n, log, ok) && forall x :: x in log ==> |x| <= |n.steps|
    requires StepEvents(tr, n.id) == StepEvents(start, n.id) + Tries(n, log)
    ensures Performed(tr, n, |log|, ok)
  {
    var p := |StepEvents(start, n.id)|;
    assert StepEvents(tr, n.id)[p..] == Tries(n, log);
  }
}
