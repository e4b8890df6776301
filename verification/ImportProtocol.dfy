/**
  * Create, confirm and cancel (replay/importer.py) run by any number of workers over the
  * shared import tables. A worker is a program counter with the values it has read; each
  * repository call is one atomic step, and steps of different workers interleave freely.
  * A worker that raises, crashes or is simply never scheduled again stays where it is.
  */
module ImportProtocol {
  import opened Maybe
  import opened ImportRepository

  datatype Pc =
    // create_import, in the order of its repository calls
    | Describe(digest: Digest)
    | Insert(digest: Digest, adopt: Option<SessionId>)
    | Validate(id: ImportId, digest: Digest, adopt: Option<SessionId>)
    | Archive(id: ImportId, digest: Digest, adopt: Option<SessionId>)
    | SaveArchived(id: ImportId, digest: Digest, adopt: Option<SessionId>)
    | Read(id: ImportId, digest: Digest, adopt: Option<SessionId>)
    | Offer(id: ImportId, session: SessionId)
    // confirm_import
    | Fetch(id: ImportId)
    | Decide(id: ImportId, record: ImportRecord)
    | BeginAdopted(id: ImportId, session: SessionId)
    | BeginPublish(id: ImportId, record: ImportRecord)
    | Complete(id: ImportId, session: SessionId)
    | Reread(id: ImportId, session: SessionId)
    | PublishRows(id: ImportId, session: SessionId)
    // cancel_import
    | FetchForCancel(id: ImportId)
    | Cancel(id: ImportId)
    // the failure paths of create and confirm
    | SaveErrors(id: ImportId)
    | Fail(id: ImportId)
    | Done

  /** Everything a step takes from outside: the row a query finds, a fresh id, an archived file's checksums, success of a read. */
  datatype Choice = Choice(found: Option<ImportId>, freshId: ImportId, archived: Digest, ok: bool)

  type WorkerId = nat

  datatype System = System(tables: Tables, workers: map<WorkerId, Pc>)

  datatype Step = Begin(worker: WorkerId, start: Pc) | Advance(worker: WorkerId, choice: Choice)

  /** The row `find_duplicate_checksum_import` returns: some row of these checksums, a completed one if there is any. */
  ghost predicate Finds(t: Tables, digest: Digest, found: Option<ImportId>) {
    && (found.Some? ==>
          && found.value in t.imports && t.imports[found.value].digest == digest
          && ((exists i :: i in t.imports && t.imports[i].digest == digest && t.imports[i].status == Completed)
                ==> t.imports[found.value].status == Completed))
    && (found.None? ==> forall i :: i in t.imports ==> t.imports[i].digest != digest)
  }

  /** The session of a found row, if the row is completed. */
  function CompletedSession(t: Tables, found: Option<ImportId>): Option<SessionId> {
    if found.Some? && found.value in t.imports && t.imports[found.value].status == Completed
    then t.imports[found.value].session else None
  }

  function StableSession(digest: Digest): SessionId { ImportedSession(digest) }

  /** Tables and program counter after a repository call: an exception ends the worker. */
  function Call(before: Tables, result: Option<Tables>, next: Pc): (Tables, Pc) {
    if result.Some? then (result.value, next) else (before, Done)
  }

  function StepWorker(t: Tables, pc: Pc, c: Choice): (Tables, Pc) {
    match pc
    case Describe(digest) => (t, Insert(digest, CompletedSession(t, c.found)))
    case Insert(digest, adopt) => (CreateRow(t, c.freshId, digest), Validate(c.freshId, digest, adopt))
    case Validate(id, digest, adopt) => Call(t, MarkValidating(t, id), Archive(id, digest, adopt))
    case Archive(id, digest, adopt) => (t, if c.ok then SaveArchived(id, c.archived, adopt) else SaveErrors(id))
    case SaveArchived(id, digest, adopt) => Call(t, SaveArchive(t, id, digest), Read(id, digest, adopt))
    case Read(id, digest, adopt) =>
      if c.ok then Call(t, SaveValidation(t, id, adopt), Offer(id, if adopt.Some? then adopt.value else StableSession(digest)))
      else Call(t, SaveValidation(t, id, None), Fail(id))
    case Offer(id, session) => Call(t, MarkAwaiting(t, id, session), Done)
    case Fetch(id) =>
      if id !in t.imports || t.imports[id].status != AwaitingConfirmation then (t, Done)
      else if t.imports[id].session.None? then (t, Fail(id))
      else (t, Decide(id, t.imports[id]))
    case Decide(id, record) =>
      if record.adopted.Some? then (t, BeginAdopted(id, record.adopted.value))
      else
        var session := CompletedSession(t, c.found);
        if session.Some? && c.found != Some(id) then (t, BeginAdopted(id, session.value)) else (t, BeginPublish(id, record))
    case BeginAdopted(id, session) => Call(t, MarkPublishing(t, id), Complete(id, session))
    case BeginPublish(id, record) =>
      if record.session.None? then (t, Done) else Call(t, MarkPublishing(t, id), Reread(id, record.session.value))
    case Complete(id, session) => Call(t, MarkCompleted(t, id, session), Done)
    case Reread(id, session) => Call(t, SaveValidation(t, id, None), if c.ok then PublishRows(id, session) else Fail(id))
    case PublishRows(id, session) =>
      var published := Publish(t, id, session);
      if c.ok && published.Some? then (published.value, Done) else (t, SaveErrors(id))
    case FetchForCancel(id) =>
      if id in t.imports && t.imports[id].status in {Uploaded, Validating, AwaitingConfirmation} then (t, Cancel(id)) else (t, Done)
    case Cancel(id) => Call(t, MarkCancelled(t, id), Done)
    case SaveErrors(id) => Call(t, SaveValidation(t, id, None), Fail(id))
    case Fail(id) => Call(t, MarkFailed(t, id), Done)
    case Done => (t, Done)
  }

  ghost predicate Possible(sys: System, s: Step) {
    match s
    case Begin(w, pc) => w !in sys.workers && (pc.Describe? || pc.Fetch? || pc.FetchForCancel?)
    case Advance(w, c) =>
      w in sys.workers &&
      match sys.workers[w]
      case Describe(digest) => Finds(sys.tables, digest, c.found)
      case Insert(_, _) => c.freshId !in sys.tables.imports
      case Decide(_, record) => Finds(sys.tables, record.digest, c.found)
      case _ => true
  }

  function Next(sys: System, s: Step): System {
    match s
    case Begin(w, pc) => sys.(workers := sys.workers[w := pc])
    case Advance(w, c) =>
      if w !in sys.workers then sys
      else var (t, pc) := StepWorker(sys.tables, sys.workers[w], c); System(t, sys.workers[w := pc])
  }

  function Run(start: System, steps: seq<Step>): System {
    if |steps| == 0 then start else Next(Run(start, steps[..|steps| - 1]), steps[|steps| - 1])
  }

  ghost predicate PossibleRun(start: System, steps: seq<Step>) {
    forall i :: 0 <= i < |steps| ==> Possible(Run(start, steps[..i]), steps[i])
  }

  /** No imports yet, no workers, any sessions captured live. */
  predicate Initial(sys: System) {
    sys.tables.imports == map[] && sys.workers == map[]
    && forall s :: s in sys.tables.sessions ==> s.LiveSession? && sys.tables.sessions[s] == None
  }

  lemma PrefixFacts(start: System, steps: seq<Step>, n: nat)
    requires n <= |steps|
    ensures PossibleRun(start, steps) ==> PossibleRun(start, steps[..n])
  {
    assert forall i :: 0 <= i < n ==> steps[..n][..i] == steps[..i];
  }

  /** The last step of a possible run was possible when it was taken. */
  lemma LastStepPossible(start: System, steps: seq<Step>)
    requires |steps| > 0 && PossibleRun(start, steps)
    ensures PossibleRun(start, steps[..|steps| - 1])
    ensures Possible(Run(start, steps[..|steps| - 1]), steps[|steps| - 1])
  {
    PrefixFacts(start, steps, |steps| - 1);
  }

  // ------------------------------------------------------------ statuses

  lemma StepMovesAlongEdges(t: Tables, pc: Pc, c: Choice)
    requires pc.Insert? ==> c.freshId !in t.imports
    ensures MovesAlongEdges(t, StepWorker(t, pc, c).0)
  {}

  /** Every step of every run moves each status along a lifecycle edge or leaves it. */
  lemma EveryStepMovesAlongEdges(start: System, steps: seq<Step>, i: nat)
    requires PossibleRun(start, steps) && i < |steps|
    ensures MovesAlongEdges(Run(start, steps[..i]).tables, Run(start, steps[..i + 1]).tables)
  {
    var sys := Run(start, steps[..i]);
    assert steps[..i + 1][..i] == steps[..i];
    assert Possible(sys, steps[i]);
    if steps[i].Advance? { StepMovesAlongEdges(sys.tables, sys.workers[steps[i].worker], steps[i].choice); }
  }

  /** Completed, cancelled and failed imports keep their status, and completed ones their session, for ever. */
  lemma {:induction false} FinalStatusesStay(start: System, steps: seq<Step>, n: nat, id: ImportId)
    requires n <= |steps| && PossibleRun(start, steps) && id in Run(start, steps[..n]).tables.imports
    ensures var then', now := Run(start, steps[..n]).tables, Run(start, steps).tables;
      && id in now.imports
      && (then'.imports[id].status in {Completed, Cancelled, Failed} ==> now.imports[id].status == then'.imports[id].status)
      && (then'.imports[id].status == Completed ==> now.imports[id].session == then'.imports[id].session)
    decreases |steps|
  {
    if n == |steps| {
      assert steps[..n] == steps;
    } else {
      var last := |steps| - 1;
      PrefixFacts(start, steps, last);
      assert steps[..last][..n] == steps[..n];
      FinalStatusesStay(start, steps[..last], n, id);
      EveryStepMovesAlongEdges(start, steps, last);
      assert steps[..last + 1] == steps;
      FinalStatusKept(Run(start, steps[..last]).tables, Run(start, steps).tables, id);
    }
  }

  lemma FinalStatusKept(before: Tables, after: Tables, id: ImportId)
    requires MovesAlongEdges(before, after) && id in before.imports
    ensures id in after.imports
    ensures before.imports[id].status in {Completed, Cancelled, Failed} ==> after.imports[id].status == before.imports[id].status
    ensures before.imports[id].status == Completed ==> after.imports[id].session == before.imports[id].session
  {}

  // ------------------------------------------------------------ sessions exist

  predicate SessionKnown(t: Tables, s: Option<SessionId>) { s.Some? ==> s.value in t.sessions }

  /** The sessions a worker would adopt are in the session table. */
  predicate AdoptsKnown(t: Tables, pc: Pc) {
    match pc
    case Insert(_, a) => SessionKnown(t, a)
    case Validate(_, _, a) => SessionKnown(t, a)
    case Archive(_, _, a) => SessionKnown(t, a)
    case SaveArchived(_, _, a) => SessionKnown(t, a)
    case Read(_, _, a) => SessionKnown(t, a)
    case Decide(_, record) => SessionKnown(t, record.adopted)
    case BeginAdopted(_, s) => s in t.sessions
    case Complete(_, s) => s in t.sessions
    case _ => true
  }

  /** Completed imports name existing sessions; a published session names the completed import that made it. */
  ghost predicate SessionsConsistent(t: Tables) {
    && (forall i :: i in t.imports && t.imports[i].status == Completed ==>
          t.imports[i].session.Some? && t.imports[i].session.value in t.sessions)
    && (forall i :: i in t.imports ==> SessionKnown(t, t.imports[i].adopted))
    && (forall s :: s in t.sessions && t.sessions[s].Some? ==>
          && t.sessions[s].value in t.imports
          && t.imports[t.sessions[s].value].status == Completed
          && t.imports[t.sessions[s].value].session == Some(s))
  }

  ghost predicate Consistent(sys: System) {
    SessionsConsistent(sys.tables) && forall w :: w in sys.workers ==> AdoptsKnown(sys.tables, sys.workers[w])
  }

  /** Rewriting one row keeps the tables consistent when a completed row keeps or gets a known session. */
  lemma UpdateKeepsConsistent(t: Tables, id: ImportId, r: ImportRecord)
    requires SessionsConsistent(t) && SessionKnown(t, r.adopted)
    requires r.status == Completed ==> r.session.Some? && r.session.value in t.sessions
    requires id in t.imports && t.imports[id].status == Completed ==> r.status == Completed && r.session == t.imports[id].session
    ensures SessionsConsistent(Updated(t, id, r))
  {}

  lemma PublishKeepsConsistent(t: Tables, id: ImportId, s: SessionId)
    requires SessionsConsistent(t) && Publish(t, id, s).Some?
    ensures SessionsConsistent(Publish(t, id, s).value)
  {}

  lemma WorkerKeepsConsistent(t: Tables, pc: Pc, c: Choice)
    requires SessionsConsistent(t) && AdoptsKnown(t, pc) && (pc.Insert? ==> c.freshId !in t.imports)
    ensures SessionsConsistent(StepWorker(t, pc, c).0) && AdoptsKnown(StepWorker(t, pc, c).0, StepWorker(t, pc, c).1)
  {
    var t' := StepWorker(t, pc, c).0;
    if t' != t {
      if pc.PublishRows? {
        PublishKeepsConsistent(t, pc.id, pc.session);
      } else {
        var id := if pc.Insert? then c.freshId else pc.id;
        UpdateKeepsConsistent(t, id, t'.imports[id]);
      }
    }
  }

  lemma StepKeepsConsistent(sys: System, s: Step, next: System)
    requires Consistent(sys) && Possible(sys, s) && next == Next(sys, s)
    ensures Consistent(next)
  {
    if s.Advance? {
      var pc := sys.workers[s.worker];
      WorkerKeepsConsistent(sys.tables, pc, s.choice);
      StepMovesAlongEdges(sys.tables, pc, s.choice);
      forall w | w in next.workers ensures AdoptsKnown(next.tables, next.workers[w]) {
        if w != s.worker { assert AdoptsKnown(sys.tables, sys.workers[w]); }
      }
    }
  }

  lemma InitialIsConsistent(start: System)
    requires Initial(start)
    ensures Consistent(start)
  {}

  lemma {:induction false} RunKeepsConsistent(start: System, steps: seq<Step>)
    requires Initial(start) && PossibleRun(start, steps)
    ensures Consistent(Run(start, steps))
  {
    if |steps| == 0 {
      InitialIsConsistent(start);
    } else {
      LastStepPossible(start, steps);
      RunKeepsConsistent(start, steps[..|steps| - 1]);
      StepKeepsConsistent(Run(start, steps[..|steps| - 1]), steps[|steps| - 1], Run(start, steps));
    }
  }

  /**
    * In every interleaving each completed import names an existing session, and each session
    * published by an import was published by exactly one completed import.
    */
  lemma CompletedImportsNameSessions(start: System, steps: seq<Step>)
    requires Initial(start) && PossibleRun(start, steps)
    ensures var t := Run(start, steps).tables;
      && (forall i :: i in t.imports && t.imports[i].status == Completed ==>
            t.imports[i].session.Some? && t.imports[i].session.value in t.sessions)
      && (forall s :: s in t.sessions && t.sessions[s].Some? ==>
            && t.sessions[s].value in t.imports
            && t.imports[t.sessions[s].value].status == Completed
            && t.imports[t.sessions[s].value].session == Some(s))
  {
    RunKeepsConsistent(start, steps);
  }

  // ----------------------------------- a run in which a source file changes

  lemma Extend(start: System, steps: seq<Step>, s: Step)
    requires PossibleRun(start, steps) && Possible(Run(start, steps), s)
    ensures PossibleRun(start, steps + [s]) && Run(start, steps + [s]) == Next(Run(start, steps), s)
  {
    var longer := steps + [s];
    assert longer[..|steps|] == steps;
    assert forall i :: 0 <= i < |steps| ==> longer[..i] == steps[..i];
  }

  /** `base` with one import row and one worker's counter replaced. */
  function At(base: System, w: WorkerId, id: ImportId, r: ImportRecord, pc: Pc): System {
    System(Updated(base.tables, id, r), base.workers[w := pc])
  }

  lemma AdvanceAt(start: System, steps: seq<Step>, base: System, w: WorkerId, id: ImportId,
                  r: ImportRecord, pc: Pc, c: Choice, r': ImportRecord, pc': Pc) returns (out: seq<Step>)
    requires PossibleRun(start, steps) && Run(start, steps) == At(base, w, id, r, pc)
    requires Possible(At(base, w, id, r, pc), Advance(w, c))
    requires var (t, next) := StepWorker(Updated(base.tables, id, r), pc, c);
      next == pc' && t.imports == base.tables.imports[id := r'] && t.sessions == base.tables.sessions
    ensures PossibleRun(start, out) && Run(start, out) == At(base, w, id, r', pc')
  {
    Extend(start, steps, Advance(w, c));
    out := steps + [Advance(w, c)];
    assert base.workers[w := pc][w := pc'] == base.workers[w := pc'];
  }

  /** A new worker creates an import of described checksums whose archived copy has others. */
  lemma CreateRun(start: System, steps: seq<Step>, w: WorkerId, id: ImportId, described: Digest, archived: Digest,
                  found: Option<ImportId>) returns (out: seq<Step>)
    requires PossibleRun(start, steps)
    requires var sys := Run(start, steps);
      w !in sys.workers && id !in sys.tables.imports && Finds(sys.tables, described, found)
    ensures PossibleRun(start, out)
    ensures var sys := Run(start, steps); var adopt := CompletedSession(sys.tables, found);
      Run(start, out) == At(sys, w, id, ImportRecord(AwaitingConfirmation, archived,
                            Some(if adopt.Some? then adopt.value else StableSession(archived)), adopt), Done)
  {
    var sys := Run(start, steps);
    var c := Choice(found, id, archived, true);
    var adopt := CompletedSession(sys.tables, found);
    var r := ImportRecord(Uploaded, described, None, None);
    out := InsertRun(start, steps, w, c, described);
    out := AdvanceAt(start, out, sys, w, id, r, Validate(id, described, adopt), c,
                     r.(status := Validating), Archive(id, described, adopt));
    r := r.(status := Validating);
    out := AdvanceAt(start, out, sys, w, id, r, Archive(id, described, adopt), c, r, SaveArchived(id, archived, adopt));
    out := OfferRun(start, out, sys, w, id, r, archived, adopt);
  }

  lemma OfferRun(start: System, steps: seq<Step>, base: System, w: WorkerId, id: ImportId, r: ImportRecord,
                 archived: Digest, adopt: Option<SessionId>) returns (out: seq<Step>)
    requires PossibleRun(start, steps) && r.status == Validating
    requires Run(start, steps) == At(base, w, id, r, SaveArchived(id, archived, adopt))
    ensures PossibleRun(start, out)
    ensures Run(start, out) == At(base, w, id, ImportRecord(AwaitingConfirmation, archived,
                                  Some(if adopt.Some? then adopt.value else StableSession(archived)), adopt), Done)
  {
    var c := Choice(None, id, archived, true);
    var session := if adopt.Some? then adopt.value else StableSession(archived);
    var r1 := r.(digest := archived);
    out := AdvanceAt(start, steps, base, w, id, r, SaveArchived(id, archived, adopt), c, r1, Read(id, archived, adopt));
    out := ReadRun(start, out, base, w, id, r1, archived, adopt, session);
    var r2 := r1.(adopted := adopt);
    out := AdvanceAt(start, out, base, w, id, r2, Offer(id, session), c,
                     r2.(status := AwaitingConfirmation, session := Some(session)), Done);
  }

  lemma ReadRun(start: System, steps: seq<Step>, base: System, w: WorkerId, id: ImportId, r: ImportRecord,
                archived: Digest, adopt: Option<SessionId>, session: SessionId) returns (out: seq<Step>)
    requires PossibleRun(start, steps) && session == if adopt.Some? then adopt.value else StableSession(archived)
    requires Run(start, steps) == At(base, w, id, r, Read(id, archived, adopt))
    ensures PossibleRun(start, out) && Run(start, out) == At(base, w, id, r.(adopted := adopt), Offer(id, session))
  {
    out := AdvanceAt(start, steps, base, w, id, r, Read(id, archived, adopt), Choice(None, id, archived, true),
                     r.(adopted := adopt), Offer(id, session));
  }

  lemma DescribeRun(start: System, steps: seq<Step>, w: WorkerId, c: Choice, described: Digest) returns (out: seq<Step>)
    requires PossibleRun(start, steps)
    requires var sys := Run(start, steps); w !in sys.workers && Finds(sys.tables, described, c.found)
    ensures PossibleRun(start, out)
    ensures var sys := Run(start, steps);
      Run(start, out) == System(sys.tables, sys.workers[w := Insert(described, CompletedSession(sys.tables, c.found))])
  {
    var sys := Run(start, steps);
    Extend(start, steps, Begin(w, Describe(described)));
    out := steps + [Begin(w, Describe(described))];
    Extend(start, out, Advance(w, c));
    out := out + [Advance(w, c)];
  }

  lemma InsertRun(start: System, steps: seq<Step>, w: WorkerId, c: Choice, described: Digest) returns (out: seq<Step>)
    requires PossibleRun(start, steps)
    requires var sys := Run(start, steps);
      w !in sys.workers && c.freshId !in sys.tables.imports && Finds(sys.tables, described, c.found)
    ensures PossibleRun(start, out)
    ensures var sys := Run(start, steps);
      Run(start, out) == At(sys, w, c.freshId, ImportRecord(Uploaded, described, None, None),
                            Validate(c.freshId, described, CompletedSession(sys.tables, c.found)))
  {
    out := DescribeRun(start, steps, w, c, described);
    Extend(start, out, Advance(w, c));
    out := out + [Advance(w, c)];
  }

  ghost predicate ReadyToConfirm(sys: System, w: WorkerId, id: ImportId) {
    && w !in sys.workers && id in sys.tables.imports
    && sys.tables.imports[id].status == AwaitingConfirmation && sys.tables.imports[id].session.Some?
    && Finds(sys.tables, sys.tables.imports[id].digest, Some(id))
  }

  lemma FetchRun(start: System, steps: seq<Step>, w: WorkerId, id: ImportId) returns (out: seq<Step>)
    requires PossibleRun(start, steps) && ReadyToConfirm(Run(start, steps), w, id)
    ensures PossibleRun(start, out)
    ensures var sys := Run(start, steps); var r := sys.tables.imports[id]; Run(start, out) == At(sys, w, id, r, Decide(id, r))
  {
    var sys := Run(start, steps);
    var r := sys.tables.imports[id];
    Extend(start, steps, Begin(w, Fetch(id)));
    out := steps + [Begin(w, Fetch(id))];
    assert sys.tables.imports[id := r] == sys.tables.imports;
    assert Run(start, out) == At(sys, w, id, r, Fetch(id));
    out := AdvanceAt(start, out, sys, w, id, r, Fetch(id), Choice(Some(id), id, r.digest, true), r, Decide(id, r));
  }

  /** A new worker confirms an awaiting import up to, not including, the publishing transaction. */
  lemma ConfirmRun(start: System, steps: seq<Step>, w: WorkerId, id: ImportId) returns (out: seq<Step>)
    requires PossibleRun(start, steps) && ReadyToConfirm(Run(start, steps), w, id)
    requires Run(start, steps).tables.imports[id].adopted.None?
    ensures PossibleRun(start, out)
    ensures var sys := Run(start, steps); var r := sys.tables.imports[id];
      Run(start, out) == At(sys, w, id, r.(status := Publishing), PublishRows(id, r.session.value))
  {
    var sys := Run(start, steps);
    var r := sys.tables.imports[id];
    var c := Choice(Some(id), id, r.digest, true);
    assert sys.tables.imports[id := r] == sys.tables.imports;
    out := FetchRun(start, steps, w, id);
    out := AdvanceAt(start, out, sys, w, id, r, Decide(id, r), c, r, BeginPublish(id, r));
    var p := r.(status := Publishing);
    out := AdvanceAt(start, out, sys, w, id, r, BeginPublish(id, r), c, p, Reread(id, r.session.value));
    out := AdvanceAt(start, out, sys, w, id, p, Reread(id, r.session.value), c, p, PublishRows(id, r.session.value));
  }

  /** A new worker confirms an awaiting import that adopts an existing session. */
  lemma ConfirmAdoptedRun(start: System, steps: seq<Step>, w: WorkerId, id: ImportId) returns (out: seq<Step>)
    requires PossibleRun(start, steps) && ReadyToConfirm(Run(start, steps), w, id)
    requires Run(start, steps).tables.imports[id].adopted.Some?
    ensures PossibleRun(start, out)
    ensures var sys := Run(start, steps); var r := sys.tables.imports[id];
      Run(start, out) == At(sys, w, id, r.(status := Completed, session := r.adopted), Done)
  {
    var sys := Run(start, steps);
    var r := sys.tables.imports[id];
    var s := r.adopted.value;
    var c := Choice(Some(id), id, r.digest, true);
    assert sys.tables.imports[id := r] == sys.tables.imports;
    out := FetchRun(start, steps, w, id);
    out := AdvanceAt(start, out, sys, w, id, r, Decide(id, r), c, r, BeginAdopted(id, s));
    var p := r.(status := Publishing);
    out := AdvanceAt(start, out, sys, w, id, r, BeginAdopted(id, s), c, p, Complete(id, s));
    out := AdvanceAt(start, out, sys, w, id, p, Complete(id, s), c, p.(status := Completed, session := Some(s)), Done);
  }

  /** The worker at the publishing transaction publishes. */
  lemma PublishRun(start: System, steps: seq<Step>, w: WorkerId, id: ImportId, s: SessionId) returns (out: seq<Step>)
    requires PossibleRun(start, steps)
    requires var sys := Run(start, steps);
      w in sys.workers && sys.workers[w] == PublishRows(id, s) && Publish(sys.tables, id, s).Some?
    ensures PossibleRun(start, out)
    ensures var sys := Run(start, steps);
      Run(start, out) == System(Publish(sys.tables, id, s).value, sys.workers[w := Done])
  {
    var c := Choice(None, id, Run(start, steps).tables.imports[id].digest, true);
    Extend(start, steps, Advance(w, c));
    out := steps + [Advance(w, c)];
  }

  /**
    * A possible run in which a file changes between being described and being archived, and
    * which ends with two completed imports of equal checksums and different sessions.
    */
  lemma ChangedFileSplitsChecksumPair(a: Digest, b: Digest) returns (steps: seq<Step>)
    requires a != b
    ensures var start := System(Tables(map[], map[]), map[]); var t := Run(start, steps).tables;
      && Initial(start) && PossibleRun(start, steps)
      && 1 in t.imports && 2 in t.imports
      && t.imports[1].status == Completed && t.imports[2].status == Completed
      && t.imports[1].digest == t.imports[2].digest && t.imports[1].session != t.imports[2].session
  {
    var start := System(Tables(map[], map[]), map[]);
    steps := SecondAtPublication(start, a, b);
    steps := CreateRun(start, steps, 4, 1, a, b, Some(0));
    var sa := StableSession(a);
    var first := ImportRecord(Completed, a, Some(sa), None);
    var second := ImportRecord(Publishing, b, Some(StableSession(b)), None);
    var third := ImportRecord(AwaitingConfirmation, b, Some(sa), Some(sa));
    assert Run(start, steps).tables == Tables(map[0 := first, 2 := second, 1 := third], map[sa := Some(0)]);
    steps := BothCompleted(start, steps, a, b, first, second, third);
  }

  lemma BothCompleted(start: System, steps: seq<Step>, a: Digest, b: Digest,
                      first: ImportRecord, second: ImportRecord, third: ImportRecord) returns (out: seq<Step>)
    requires a != b && PossibleRun(start, steps)
    requires first == ImportRecord(Completed, a, Some(StableSession(a)), None)
    requires second == ImportRecord(Publishing, b, Some(StableSession(b)), None)
    requires third == ImportRecord(AwaitingConfirmation, b, Some(StableSession(a)), Some(StableSession(a)))
    requires var sys := Run(start, steps);
      && sys.tables == Tables(map[0 := first, 2 := second, 1 := third], map[StableSession(a) := Some(0)])
      && 5 !in sys.workers && 3 in sys.workers && sys.workers[3] == PublishRows(2, StableSession(b))
    ensures PossibleRun(start, out)
    ensures Run(start, out).tables == Tables(
      map[0 := first, 2 := second.(status := Completed), 1 := third.(status := Completed)],
      map[StableSession(a) := Some(0), StableSession(b) := Some(2)])
  {
    out := ConfirmAdoptedRun(start, steps, 5, 1);
    assert Run(start, out).tables
        == Tables(map[0 := first, 2 := second, 1 := third.(status := Completed)], map[StableSession(a) := Some(0)]);
    out := PublishRun(start, out, 3, 2, StableSession(b));
  }

  lemma FirstPublished(start: System, a: Digest) returns (steps: seq<Step>)
    requires start == System(Tables(map[], map[]), map[])
    ensures PossibleRun(start, steps)
    ensures Run(start, steps) == System(
      Tables(map[0 := ImportRecord(Completed, a, Some(StableSession(a)), None)], map[StableSession(a) := Some(0)]),
      map[0 := Done, 1 := Done])
  {
    steps := CreateRun(start, [], 0, 0, a, a, None);
    steps := ConfirmRun(start, steps, 1, 0);
    steps := PublishRun(start, steps, 1, 0, StableSession(a));
  }

  lemma SecondAtPublication(start: System, a: Digest, b: Digest) returns (steps: seq<Step>)
    requires start == System(Tables(map[], map[]), map[]) && a != b
    ensures PossibleRun(start, steps)
    ensures Run(start, steps) == System(
      Tables(map[0 := ImportRecord(Completed, a, Some(StableSession(a)), None),
                 2 := ImportRecord(Publishing, b, Some(StableSession(b)), None)], map[StableSession(a) := Some(0)]),
      map[0 := Done, 1 := Done, 2 := Done, 3 := PublishRows(2, StableSession(b))])
  {
    steps := FirstPublished(start, a);
    steps := CreateRun(start, steps, 2, 2, b, b, None);
    var first := ImportRecord(Completed, a, Some(StableSession(a)), None);
    assert Run(start, steps).tables
        == Tables(map[0 := first, 2 := ImportRecord(AwaitingConfirmation, b, Some(StableSession(b)), None)],
                  map[StableSession(a) := Some(0)]);
    steps := ConfirmRun(start, steps, 3, 2);
  }

  // --------------------------------------------------- a worker left undisturbed

  /** What its steps take from outside: one row found, one fresh id, one archived pair, and whether archiving, reading and inserting succeed. */
  datatype Outside = Outside(found: Option<ImportId>, freshId: ImportId, archived: Digest, archiveOk: bool, readOk: bool, rowsOk: bool)

  function ChoiceAt(pc: Pc, o: Outside): Choice {
    Choice(o.found, o.freshId, o.archived, if pc.PublishRows? then o.rowsOk else if pc.Archive? then o.archiveOk else o.readOk)
  }

  /** Tables and program counter after `n` steps of one worker and none of any other. */
  function Alone(t: Tables, pc: Pc, o: Outside, n: nat): (Tables, Pc) {
    if n == 0 then (t, pc)
    else
      var (t', pc') := Alone(t, pc, o, n - 1);
      StepWorker(t', pc', ChoiceAt(pc', o))
  }

  /** The same steps as steps of the whole system. */
  function OwnSteps(t: Tables, w: WorkerId, pc: Pc, o: Outside, n: nat): seq<Step> {
    if n == 0 then []
    else OwnSteps(t, w, pc, o, n - 1) + [Advance(w, ChoiceAt(Alone(t, pc, o, n - 1).1, o))]
  }

  lemma {:induction false} AloneIsARun(sys: System, w: WorkerId, pc: Pc, o: Outside, n: nat)
    requires w in sys.workers && sys.workers[w] == pc
    ensures var (t, pc') := Alone(sys.tables, pc, o, n);
      Run(sys, OwnSteps(sys.tables, w, pc, o, n)) == System(t, sys.workers[w := pc'])
  {
    if n == 0 {
      assert sys.workers[w := pc] == sys.workers;
    } else {
      AloneIsARun(sys, w, pc, o, n - 1);
      var steps := OwnSteps(sys.tables, w, pc, o, n);
      assert steps[..|steps| - 1] == OwnSteps(sys.tables, w, pc, o, n - 1);
      var (t, pc') := Alone(sys.tables, pc, o, n);
      var mid := Alone(sys.tables, pc, o, n - 1).1;
      assert sys.workers[w := mid][w := pc'] == sys.workers[w := pc'];
    }
  }

  /** What `Alone` does first. */
  lemma {:induction false} AloneFirst(t: Tables, pc: Pc, o: Outside, n: nat)
    ensures var (t', pc') := StepWorker(t, pc, ChoiceAt(pc, o)); Alone(t, pc, o, n + 1) == Alone(t', pc', o, n)
  {
    if n > 0 { AloneFirst(t, pc, o, n - 1); }
  }

  /** Done is the end. */
  lemma {:induction false} DoneStays(t: Tables, o: Outside, n: nat)
    ensures Alone(t, Done, o, n) == (t, Done)
  {
    if n > 0 { DoneStays(t, o, n - 1); }
  }

  /** Left alone, `pc` is done after `n` steps or more and leaves `t'`. */
  ghost predicate Ends(t: Tables, pc: Pc, o: Outside, n: nat, t': Tables) {
    forall m: nat :: m >= n ==> Alone(t, pc, o, m) == (t', Done)
  }

  lemma EndsAtOnce(t: Tables, o: Outside)
    ensures Ends(t, Done, o, 0, t)
  {
    forall m: nat | true ensures Alone(t, Done, o, m) == (t, Done) { DoneStays(t, o, m); }
  }

  lemma EndsAfter(t: Tables, pc: Pc, o: Outside, t1: Tables, pc1: Pc, n: nat, t': Tables)
    requires StepWorker(t, pc, ChoiceAt(pc, o)) == (t1, pc1) && Ends(t1, pc1, o, n, t')
    ensures Ends(t, pc, o, n + 1, t')
  {
    forall m: nat | m >= n + 1 ensures Alone(t, pc, o, m) == (t', Done) {
      AloneFirst(t, pc, o, m - 1);
      assert Alone(t1, pc1, o, m - 1) == (t', Done);
    }
  }

  ghost predicate Waiting(t: Tables, id: ImportId, r: ImportRecord) {
    id in t.imports && t.imports[id] == r && r.status == AwaitingConfirmation
  }

  lemma FailAlone(t: Tables, id: ImportId, o: Outside)
    requires id in t.imports && t.imports[id].status !in {Completed, Cancelled}
    ensures Ends(t, Fail(id), o, 1, Updated(t, id, t.imports[id].(status := Failed)))
  {
    var failed := Updated(t, id, t.imports[id].(status := Failed));
    EndsAtOnce(failed, o);
    EndsAfter(t, Fail(id), o, failed, Done, 0, failed);
  }

  lemma RefusedAlone(t: Tables, id: ImportId, o: Outside)
    requires id !in t.imports || t.imports[id].status != AwaitingConfirmation
    ensures Ends(t, Fetch(id), o, 1, t)
  {
    EndsAtOnce(t, o);
    EndsAfter(t, Fetch(id), o, t, Done, 0, t);
  }

  lemma NamelessAlone(t: Tables, id: ImportId, r: ImportRecord, o: Outside)
    requires Waiting(t, id, r) && r.session.None?
    ensures Ends(t, Fetch(id), o, 2, Updated(t, id, r.(status := Failed)))
  {
    FailAlone(t, id, o);
    EndsAfter(t, Fetch(id), o, t, Fail(id), 1, Updated(t, id, r.(status := Failed)));
  }

  /** A confirmation that decides to adopt. */
  lemma AdoptingAlone(t: Tables, id: ImportId, r: ImportRecord, o: Outside, s: SessionId)
    requires Waiting(t, id, r) && r.session.Some?
    requires StepWorker(t, Decide(id, r), ChoiceAt(Decide(id, r), o)) == (t, BeginAdopted(id, s))
    ensures Ends(t, Fetch(id), o, 4, Updated(t, id, r.(status := Completed, session := Some(s))))
  {
    var begun, done := Updated(t, id, r.(status := Publishing)), Updated(t, id, r.(status := Completed, session := Some(s)));
    assert begun.imports[id := r.(status := Completed, session := Some(s))] == done.imports;
    EndsAtOnce(done, o);
    EndsAfter(begun, Complete(id, s), o, done, Done, 0, done);
    EndsAfter(t, BeginAdopted(id, s), o, begun, Complete(id, s), 1, done);
    EndsAfter(t, Decide(id, r), o, t, BeginAdopted(id, s), 2, done);
    EndsAfter(t, Fetch(id), o, t, Decide(id, r), 3, done);
  }

  /** What the publishing transaction leaves, or its failure. */
  function PublicationOf(t: Tables, id: ImportId, session: SessionId, good: bool): Tables {
    var published := Publish(t, id, session);
    if good && published.Some? then published.value
    else if id in t.imports then Updated(t, id, t.imports[id].(status := Failed)) else t
  }

  lemma PublicationAlone(t: Tables, id: ImportId, s: SessionId, o: Outside)
    requires id in t.imports && t.imports[id].status == Publishing && t.imports[id].adopted.None? && o.readOk
    ensures Ends(t, PublishRows(id, s), o, 3, PublicationOf(t, id, s, o.rowsOk))
  {
    var published := Publish(t, id, s);
    if o.rowsOk && published.Some? {
      EndsAtOnce(published.value, o);
      EndsAfter(t, PublishRows(id, s), o, published.value, Done, 0, published.value);
    } else {
      var failed := Updated(t, id, t.imports[id].(status := Failed));
      assert Updated(t, id, t.imports[id].(adopted := None)) == t;
      FailAlone(t, id, o);
      EndsAfter(t, SaveErrors(id), o, t, Fail(id), 1, failed);
      EndsAfter(t, PublishRows(id, s), o, t, SaveErrors(id), 2, failed);
    }
  }

  /** A confirmation that decides to publish. */
  lemma PublishingAlone(t: Tables, id: ImportId, r: ImportRecord, o: Outside, s: SessionId, cleared: Tables)
    requires Waiting(t, id, r) && r.session == Some(s) && cleared == Updated(t, id, r.(status := Publishing, adopted := None))
    requires StepWorker(t, Decide(id, r), ChoiceAt(Decide(id, r), o)) == (t, BeginPublish(id, r))
    ensures Ends(t, Fetch(id), o, 7, PublicationOf(cleared, id, s, o.readOk && o.rowsOk))
  {
    var begun, end := Updated(t, id, r.(status := Publishing)), PublicationOf(cleared, id, s, o.readOk && o.rowsOk);
    assert begun.imports[id := r.(status := Publishing, adopted := None)] == cleared.imports;
    var next := if o.readOk then PublishRows(id, s) else Fail(id);
    if o.readOk { PublicationAlone(cleared, id, s, o); } else { FailAlone(cleared, id, o); }
    assert Ends(cleared, next, o, 3, end);
    EndsAfter(begun, Reread(id, s), o, cleared, next, 3, end);
    EndsAfter(t, BeginPublish(id, r), o, begun, Reread(id, s), 4, end);
    EndsAfter(t, Decide(id, r), o, t, BeginPublish(id, r), 5, end);
    EndsAfter(t, Fetch(id), o, t, Decide(id, r), 6, end);
  }

  function AfterCancel(t: Tables, id: ImportId): Tables {
    if id in t.imports && t.imports[id].status in {Uploaded, Validating, AwaitingConfirmation}
    then Updated(t, id, t.imports[id].(status := Cancelled)) else t
  }

  lemma CancelAlone(t: Tables, id: ImportId, o: Outside)
    ensures Ends(t, FetchForCancel(id), o, 2, AfterCancel(t, id))
  {
    if id in t.imports && t.imports[id].status in {Uploaded, Validating, AwaitingConfirmation} {
      var cancelled := Updated(t, id, t.imports[id].(status := Cancelled));
      EndsAtOnce(cancelled, o);
      EndsAfter(t, Cancel(id), o, cancelled, Done, 0, cancelled);
      EndsAfter(t, FetchForCancel(id), o, t, Cancel(id), 1, cancelled);
    } else {
      EndsAtOnce(t, o);
      EndsAfter(t, FetchForCancel(id), o, t, Done, 0, t);
    }
  }

  /** The session a confirmation adopts instead of publishing. */
  function AdoptedBy(t: Tables, id: ImportId, r: ImportRecord, found: Option<ImportId>): Option<SessionId> {
    if r.adopted.Some? then r.adopted else if found != Some(id) then CompletedSession(t, found) else None
  }

  /** The tables a lone confirmation leaves. */
  function AfterConfirm(t: Tables, id: ImportId, found: Option<ImportId>, good: bool): Tables {
    if id !in t.imports || t.imports[id].status != AwaitingConfirmation then t
    else
      var r := t.imports[id];
      var adopted := AdoptedBy(t, id, r, found);
      if r.session.None? then Updated(t, id, r.(status := Failed))
      else if adopted.Some? then Updated(t, id, r.(status := Completed, session := adopted))
      else
        var cleared := Updated(t, id, r.(status := Publishing, adopted := None));
        if good && Publish(cleared, id, r.session.value).Some? then Publish(cleared, id, r.session.value).value
        else Updated(t, id, r.(status := Failed, adopted := None))
  }

  lemma ConfirmAlone(t: Tables, id: ImportId, o: Outside)
    ensures Ends(t, Fetch(id), o, 7, AfterConfirm(t, id, o.found, o.readOk && o.rowsOk))
  {
    if id !in t.imports || t.imports[id].status != AwaitingConfirmation {
      RefusedAlone(t, id, o);
    } else {
      var r := t.imports[id];
      var adopted := AdoptedBy(t, id, r, o.found);
      if r.session.None? {
        NamelessAlone(t, id, r, o);
      } else if adopted.Some? {
        AdoptingAlone(t, id, r, o, adopted.value);
      } else {
        var cleared, failed := Updated(t, id, r.(status := Publishing, adopted := None)), Updated(t, id, r.(status := Failed, adopted := None));
        assert Updated(cleared, id, failed.imports[id]) == failed;
        PublishingAlone(t, id, r, o, r.session.value, cleared);
      }
    }
  }

  /** A completed import of these checksums. */
  predicate CompletedOf(t: Tables, i: ImportId, digest: Digest) {
    i in t.imports && t.imports[i].status == Completed && t.imports[i].digest == digest
  }

  /**
    * Confirmed alone, a waiting import ends completed with the session it adopted when it was
    * created, or else with the session of a completed import of its checksums if there is one.
    * Otherwise it publishes a session of its own, unless the files or rows are bad or that
    * session exists; then it ends failed.
    */
  lemma LoneConfirmation(t: Tables, id: ImportId, r: ImportRecord, s: SessionId, o: Outside, t': Tables)
    requires SessionsConsistent(t) && Waiting(t, id, r) && r.session == Some(s)
    requires Finds(t, r.digest, o.found) && Ends(t, Fetch(id), o, 7, t')
    ensures id in t'.imports && OthersStay(t, id, t') && ConfirmedAs(t, id, r, s, o, t')
  {
    ConfirmAlone(t, id, o);
    assert Alone(t, Fetch(id), o, 7) == (t', Done);
    if r.adopted.None? {
      if AdoptedBy(t, id, r, o.found).Some? {
        assert CompletedOf(t, o.found.value, r.digest);
      } else {
        assert forall i :: !CompletedOf(t, i, r.digest);
      }
    }
  }

  ghost predicate OthersStay(t: Tables, id: ImportId, t': Tables) {
    t'.imports.Keys == t.imports.Keys && forall i :: i in t.imports && i != id ==> t'.imports[i] == t.imports[i]
  }

  ghost predicate AdoptsCompleted(t: Tables, id: ImportId, r: ImportRecord, t': Tables) {
    exists i :: CompletedOf(t, i, r.digest) && t' == Updated(t, id, r.(status := Completed, session := t.imports[i].session))
  }

  ghost predicate ConfirmedAs(t: Tables, id: ImportId, r: ImportRecord, s: SessionId, o: Outside, t': Tables)
    requires id in t'.imports
  {
    if r.adopted.Some? then t' == Updated(t, id, r.(status := Completed, session := r.adopted))
    else if exists i :: CompletedOf(t, i, r.digest) then AdoptsCompleted(t, id, r, t')
    else if o.readOk && o.rowsOk && s !in t.sessions then
      t'.imports[id] == r.(status := Completed) && t'.sessions == t.sessions[s := Some(id)]
    else
      t'.imports[id] == r.(status := Failed) && t'.sessions == t.sessions
  }

  // ------------------------------------------------------------ creation alone

  /** From the archived files to the offer, or to the failure. */
  lemma OfferAlone(t: Tables, id: ImportId, r: ImportRecord, adopt: Option<SessionId>, o: Outside, t': Tables)
    requires id in t.imports && t.imports[id] == r && r.status == Validating && r.adopted.None? && r.session.None?
    requires t' == Updated(t, id, ReadRow(r.(digest := o.archived), adopt, o))
    ensures Ends(t, SaveArchived(id, o.archived, adopt), o, 3, t')
  {
    var saved := Updated(t, id, r.(digest := o.archived));
    assert Updated(saved, id, r.(digest := o.archived)) == saved;
    ReadAlone(saved, id, r.(digest := o.archived), adopt, o, t');
    EndsAfter(t, SaveArchived(id, o.archived, adopt), o, saved, Read(id, o.archived, adopt), 2, t');
  }

  lemma ReadAlone(t: Tables, id: ImportId, r: ImportRecord, adopt: Option<SessionId>, o: Outside, t': Tables)
    requires id in t.imports && t.imports[id] == r && r.status == Validating && r.adopted.None? && r.session.None?
    requires r.digest == o.archived && t' == Updated(t, id, ReadRow(r, adopt, o))
    ensures Ends(t, Read(id, o.archived, adopt), o, 2, t')
  {
    if o.readOk {
      var read := Updated(t, id, r.(adopted := adopt));
      var session := if adopt.Some? then adopt.value else StableSession(o.archived);
      assert read.imports[id := ReadRow(r, adopt, o)] == t'.imports;
      EndsAtOnce(t', o);
      EndsAfter(read, Offer(id, session), o, t', Done, 0, t');
      EndsAfter(t, Read(id, o.archived, adopt), o, read, Offer(id, session), 1, t');
    } else {
      assert Updated(t, id, r.(adopted := None)) == t;
      FailAlone(t, id, o);
      EndsAfter(t, Read(id, o.archived, adopt), o, t, Fail(id), 1, t');
    }
  }

  function ReadRow(r: ImportRecord, adopt: Option<SessionId>, o: Outside): ImportRecord {
    if o.readOk
    then r.(status := AwaitingConfirmation, session := Some(if adopt.Some? then adopt.value else StableSession(o.archived)), adopted := adopt)
    else r.(status := Failed)
  }

  lemma CreateAlone(t: Tables, digest: Digest, o: Outside, r: ImportRecord, t': Tables)
    requires o.freshId !in t.imports && r == ImportRecord(Validating, digest, None, None)
    requires t' == Updated(t, o.freshId, if o.archiveOk then ReadRow(r.(digest := o.archived), CompletedSession(t, o.found), o)
                                         else r.(status := Failed))
    ensures Ends(t, Describe(digest), o, 7, t')
  {
    var id, adopt := o.freshId, CompletedSession(t, o.found);
    var inserted, validating := CreateRow(t, id, digest), Updated(t, id, r);
    assert inserted.imports[id := r] == validating.imports;
    if o.archiveOk {
      assert validating.imports[id := t'.imports[id]] == t'.imports;
      OfferAlone(validating, id, r, adopt, o, t');
      EndsAfter(validating, Archive(id, digest, adopt), o, validating, SaveArchived(id, o.archived, adopt), 3, t');
    } else {
      assert validating.imports[id := r.(status := Failed)] == t'.imports;
      assert Updated(validating, id, r.(adopted := None)) == validating;
      FailAlone(validating, id, o);
      EndsAfter(validating, SaveErrors(id), o, validating, Fail(id), 1, t');
      EndsAfter(validating, Archive(id, digest, adopt), o, validating, SaveErrors(id), 2, t');
    }
    assert Ends(validating, Archive(id, digest, adopt), o, 4, t');
    EndsAfter(inserted, Validate(id, digest, adopt), o, validating, Archive(id, digest, adopt), 4, t');
    EndsAfter(t, Insert(digest, adopt), o, inserted, Validate(id, digest, adopt), 5, t');
    EndsAfter(t, Describe(digest), o, t, Insert(digest, adopt), 6, t');
  }

  /**
    * Created alone, an import of readable files awaits confirmation under the session of a
    * completed import of the described checksums if there is one, which it adopts, and else
    * under a session named after the archived checksums.
    */
  lemma LoneCreation(t: Tables, digest: Digest, o: Outside, t': Tables)
    requires SessionsConsistent(t) && o.freshId !in t.imports
    requires Finds(t, digest, o.found) && Ends(t, Describe(digest), o, 7, t')
    ensures t'.imports.Keys == t.imports.Keys + {o.freshId} && t'.sessions == t.sessions
    ensures forall i :: i in t.imports ==> t'.imports[i] == t.imports[i]
    ensures CreatedAs(t, digest, o, t'.imports[o.freshId])
  {
    var r := ImportRecord(Validating, digest, None, None);
    var end := Updated(t, o.freshId, if o.archiveOk then ReadRow(r.(digest := o.archived), CompletedSession(t, o.found), o)
                                     else r.(status := Failed));
    CreateAlone(t, digest, o, r, end);
    assert Alone(t, Describe(digest), o, 7) == (t', Done);
    if o.found.Some? { assert CompletedOf(t, o.found.value, digest) <==> t.imports[o.found.value].status == Completed; }
  }

  ghost predicate CreatedAs(t: Tables, digest: Digest, o: Outside, r: ImportRecord) {
    if !o.archiveOk then r == ImportRecord(Failed, digest, None, None)
    else if !o.readOk then r == ImportRecord(Failed, o.archived, None, None)
    else if exists i :: CompletedOf(t, i, digest) then
      exists i :: CompletedOf(t, i, digest) && r == ImportRecord(AwaitingConfirmation, o.archived, t.imports[i].session, t.imports[i].session)
    else r == ImportRecord(AwaitingConfirmation, o.archived, Some(ImportedSession(o.archived)), None)
  }

  /** The rows of an import can be inserted under its session. */
  predicate RowsInsert(snapshotTable: SnapshotTable, quoteTable: QuoteTable, t: Tables, id: ImportId,
                       snapshots: seq<SnapshotRow>, quotes: seq<QuoteRow>) {
    id in t.imports && t.imports[id].session.Some? ==>
      var session := t.imports[id].session.value;
      InsertSnapshots(snapshotTable, session, snapshots).Some? && InsertQuotes(quoteTable, session, quotes).Some?
  }

  /** A lone confirming worker that finds, reads and inserts like this leaves `t'`. */
  ghost predicate ConfirmLeaves(t: Tables, id: ImportId, found: Option<ImportId>, readOk: bool, rowsOk: bool, t': Tables) {
    forall o: Outside :: o.found == found && o.readOk == readOk && o.rowsOk == rowsOk ==> Ends(t, Fetch(id), o, 7, t')
  }

  lemma LoneWorkerLeaves(t: Tables, id: ImportId, found: Option<ImportId>, readOk: bool, rowsOk: bool)
    ensures ConfirmLeaves(t, id, found, readOk, rowsOk, AfterConfirm(t, id, found, readOk && rowsOk))
  {
    forall o: Outside | o.found == found && o.readOk == readOk && o.rowsOk == rowsOk
      ensures Ends(t, Fetch(id), o, 7, AfterConfirm(t, id, found, readOk && rowsOk))
    {
      ConfirmAlone(t, id, o);
    }
  }

  class ReplayParquetImporter {
    const repository: ReplayImportRepository

    constructor (repository: ReplayImportRepository)
      ensures this.repository == repository
    {
      this.repository := repository;
    }

    /**
      * A confirmation no other worker disturbs: a waiting import completes with an adopted
      * session, or publishes its own, or fails; any other import is left as it is.
      */
    method ConfirmImport(id: ImportId, found: Option<ImportId>, readOk: bool, snapshots: seq<SnapshotRow>, quotes: seq<QuoteRow>)
      returns (status: Option<Status>)
      modifies repository
      ensures var t, rowsOk := old(repository.tables), RowsInsert(old(repository.snapshotTable), old(repository.quoteTable),
                                                                  old(repository.tables), id, snapshots, quotes);
        && repository.tables == AfterConfirm(t, id, found, readOk && rowsOk)
        && status == (if id in t.imports then Some(repository.tables.imports[id].status) else None)
        && ConfirmLeaves(t, id, found, readOk, rowsOk, repository.tables)
    {
      ghost var t := repository.tables;
      ghost var rowsOk := RowsInsert(repository.snapshotTable, repository.quoteTable, t, id, snapshots, quotes);
      LoneWorkerLeaves(t, id, found, readOk, rowsOk);
      if id !in repository.tables.imports {
        return None;
      }
      var r := repository.tables.imports[id];
      if r.status != AwaitingConfirmation {
        return Some(r.status);
      }
      if r.session.None? {
        var _ := repository.Fail(id);
        return Some(Failed);
      }
      var adopted := AdoptedBy(repository.tables, id, r, found);
      var begun := repository.TransitionRow(id, AwaitingConfirmation, Publishing, None);
      if adopted.Some? {
        var completed := repository.TransitionRow(id, Publishing, Completed, adopted);
        return Some(Completed);
      }
      var validated := repository.SaveSummary(id, None);
      if readOk {
        var published := repository.PublishImport(id, r.session.value, snapshots, quotes);
        if published {
          return Some(Completed);
        }
        validated := repository.SaveSummary(id, None);
      }
      var failed := repository.Fail(id);
      return Some(Failed);
    }

    /** Reads the import first and cancels it only from an early status; the result is the status it then has. */
    method CancelImport(id: ImportId) returns (status: Option<Status>)
      modifies repository
      ensures var t := old(repository.tables);
        if id !in t.imports then status == None && repository.tables == t
        else if t.imports[id].status in {Uploaded, Validating, AwaitingConfirmation} then
          status == Some(Cancelled) && repository.tables == Updated(t, id, t.imports[id].(status := Cancelled))
        else status == Some(t.imports[id].status) && repository.tables == t
      // the tables a lone worker leaves
      ensures forall o: Outside :: Ends(old(repository.tables), FetchForCancel(id), o, 2, repository.tables)
    {
      ghost var t := repository.tables;
      ghost var end := AfterCancel(t, id);
      forall o: Outside | true ensures Ends(t, FetchForCancel(id), o, 2, end) { CancelAlone(t, id, o); }
      if id !in repository.tables.imports {
        return None;
      }
      var r := repository.tables.imports[id];
      if r.status in {Uploaded, Validating, AwaitingConfirmation} {
        var cancelled := repository.Cancel(id);
        return Some(repository.tables.imports[id].status);
      }
      return Some(r.status);
    }
  }
}
