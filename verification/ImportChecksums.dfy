/**
  * Checksums and sessions of imports. An import can adopt the session of a completed import
  * with the checksums it was described by, and its archived copy is described again. The
  * theorems say, for every interleaving, when completed imports share a session exactly with
  * those of equal checksums.
  */
module ImportChecksums {
  import opened Maybe
  import opened ImportRepository
  import opened ImportProtocol

  /** A creation that adopted a session: the checksums it was looked up by, and those archived. */
  datatype Adoption = Adoption(session: SessionId, described: Digest, archived: Digest)

  type History = map<ImportId, Adoption>

  /** Noted when an adopting worker archives its files. */
  function Recorded(pc: Pc, c: Choice, h: History): History {
    if pc.Archive? && pc.adopt.Some? && c.ok then h[pc.id := Adoption(pc.adopt.value, pc.digest, c.archived)] else h
  }

  function Adoptions(start: System, steps: seq<Step>): History {
    if |steps| == 0 then map[]
    else
      var before, s := Run(start, steps[..|steps| - 1]), steps[|steps| - 1];
      var h := Adoptions(start, steps[..|steps| - 1]);
      if s.Advance? && s.worker in before.workers then Recorded(before.workers[s.worker], s.choice, h) else h
  }

  /** The file of an adopting import changed between being described and being archived. */
  predicate Strayed(h: History, id: ImportId) { id in h && h[id].archived != h[id].described }

  predicate IsCompleted(t: Tables, id: ImportId) { id in t.imports && t.imports[id].status == Completed }

  /** No completed import strayed. */
  ghost predicate NoCompletedStray(t: Tables, h: History) { forall i :: IsCompleted(t, i) ==> !Strayed(h, i) }

  /** Completed imports share a session exactly when their checksum pairs are equal. */
  ghost predicate OneSessionEach(t: Tables) {
    forall i, j :: IsCompleted(t, i) && IsCompleted(t, j) ==>
      (t.imports[i].session == t.imports[j].session <==> t.imports[i].digest == t.imports[j].digest)
  }

  // ------------------------------------------------ what every run keeps, strays or not

  ghost predicate Owned(t: Tables, s: SessionId, d: Digest) {
    exists j :: IsCompleted(t, j) && t.imports[j].session == Some(s) && t.imports[j].digest == d
  }

  predicate Early(s: Status) { s in {Uploaded, Validating, Failed, Cancelled} }

  predicate Fresh(r: ImportRecord) { r.session.None? && r.adopted.None? && Early(r.status) }

  /** The import a creating worker is still building. */
  function Building(pc: Pc): Option<ImportId> {
    match pc
    case Validate(id, _, _) => Some(id)
    case Archive(id, _, _) => Some(id)
    case SaveArchived(id, _, _) => Some(id)
    case Read(id, _, _) => Some(id)
    case Offer(id, _) => Some(id)
    case _ => None
  }

  /** The import about which a worker holds values. */
  function Claimed(pc: Pc): Option<ImportId> {
    match pc
    case Decide(id, _) => Some(id)
    case BeginAdopted(id, _) => Some(id)
    case BeginPublish(id, _) => Some(id)
    case Complete(id, _) => Some(id)
    case Reread(id, _) => Some(id)
    case PublishRows(id, _) => Some(id)
    case SaveErrors(id) => Some(id)
    case _ => Building(pc)
  }

  /** The row of an adopting import has, once offered, the adopted session and the archived checksums. */
  ghost predicate RowTied(t: Tables, h: History, id: ImportId)
    requires id in t.imports
  {
    id in h ==>
      var r, a := t.imports[id], h[id];
      && Owned(t, a.session, a.described)
      && (r.session.Some? ==> r.session == Some(a.session))
      && (if r.adopted.Some? then r.adopted == Some(a.session) else r.session.None? && Early(r.status))
      && (!Early(r.status) ==> r.digest == a.archived)
  }

  ghost predicate AdoptedHere(h: History, id: ImportId, digest: Digest, adopt: Option<SessionId>) {
    if id in h then adopt == Some(h[id].session) && digest == h[id].archived else adopt.None?
  }

  /** What a worker holds agrees with the row and the history of its import. */
  ghost predicate WorkerTied(t: Tables, h: History, pc: Pc) {
    && (Claimed(pc).Some? ==> Claimed(pc).value in t.imports)
    && match pc
       case Insert(d, a) => a.Some? ==> Owned(t, a.value, d)
       case Validate(id, d, a) => Fresh(t.imports[id]) && t.imports[id].digest == d && id !in h && (a.Some? ==> Owned(t, a.value, d))
       case Archive(id, d, a) => Fresh(t.imports[id]) && t.imports[id].digest == d && id !in h && (a.Some? ==> Owned(t, a.value, d))
       case SaveArchived(id, d, a) => Fresh(t.imports[id]) && AdoptedHere(h, id, d, a)
       case Read(id, d, a) => Fresh(t.imports[id]) && t.imports[id].digest == d && AdoptedHere(h, id, d, a)
       case Offer(id, s) =>
         var r := t.imports[id];
         r.session.None? && Early(r.status)
         && (id in h ==> s == h[id].session && r.adopted == Some(s) && r.digest == h[id].archived)
       case Decide(id, r) => r.digest == t.imports[id].digest && (id in h ==> r.adopted == Some(h[id].session))
       case BeginAdopted(id, s) => id in h ==> s == h[id].session
       case BeginPublish(id, r) => r.digest == t.imports[id].digest && id !in h
       case Complete(id, s) => id in h ==> s == h[id].session
       case Reread(id, _) => id !in h
       case PublishRows(id, _) => id !in h
       case SaveErrors(id) => id !in h
       case _ => true
  }

  ghost predicate RowsTied(t: Tables, h: History) {
    && (forall id :: id in h ==> id in t.imports)
    && (forall id :: id in t.imports ==> RowTied(t, h, id))
  }

  /** Only one worker builds an import, and none holds values about it meanwhile. */
  ghost predicate Apart(sys: System) {
    forall v, w :: v in sys.workers && w in sys.workers && v != w && Building(sys.workers[v]).Some? ==>
      Claimed(sys.workers[w]) != Building(sys.workers[v])
  }

  ghost predicate Tied(sys: System, h: History) {
    && RowsTied(sys.tables, h)
    && (forall w :: w in sys.workers ==> WorkerTied(sys.tables, h, sys.workers[w]))
    && Apart(sys)
  }

  // -------------------------------------------------------------------- one step of a worker

  /** Completed rows keep their session and checksums. */
  ghost predicate CompletedKept(before: Tables, after: Tables) {
    forall j :: IsCompleted(before, j) ==>
      && IsCompleted(after, j)
      && after.imports[j].session == before.imports[j].session && after.imports[j].digest == before.imports[j].digest
  }

  function Touched(pc: Pc, c: Choice): Option<ImportId> {
    match pc
    case Insert(_, _) => Some(c.freshId)
    case Cancel(id) => Some(id)
    case Fail(id) => Some(id)
    case _ => Claimed(pc)
  }

  /** What a step leaves alone: other rows; checksums and history unless it builds; all but a row's status without a claim. */
  ghost predicate Limited(t: Tables, h: History, t': Tables, h': History, pc: Pc, c: Choice) {
    forall i :: i in t.imports ==> LimitedAt(t, h, t', h', pc, c, i)
  }

  ghost predicate LimitedAt(t: Tables, h: History, t': Tables, h': History, pc: Pc, c: Choice, i: ImportId)
    requires i in t.imports
  {
    && i in t'.imports
    && (Touched(pc, c) != Some(i) ==> t'.imports[i] == t.imports[i] && (i in h' <==> i in h) && (i in h ==> h'[i] == h[i]))
    && (Building(pc).None? ==> h' == h && t'.imports[i].digest == t.imports[i].digest)
    && (Claimed(pc).None? ==>
          && t'.imports[i] == t.imports[i].(status := t'.imports[i].status)
          && (t'.imports[i].status == t.imports[i].status || Early(t'.imports[i].status)))
  }

  predicate Enabled(t: Tables, pc: Pc, c: Choice) {
    && (pc.Insert? ==> c.freshId !in t.imports)
    && (pc.Describe? && c.found.Some? ==> c.found.value in t.imports && t.imports[c.found.value].digest == pc.digest)
    && (pc.Decide? && c.found.Some? ==> c.found.value in t.imports && t.imports[c.found.value].digest == pc.record.digest)
  }

  lemma StepIsLimited(t: Tables, h: History, pc: Pc, c: Choice, t': Tables, h': History)
    requires Enabled(t, pc, c) && RowsTied(t, h) && WorkerTied(t, h, pc)
    requires t' == StepWorker(t, pc, c).0 && h' == Recorded(pc, c, h)
    ensures CompletedKept(t, t') && Limited(t, h, t', h', pc, c)
    ensures forall i :: i in h ==> i in h' && h'[i] == h[i]
  {
    if Building(pc).Some? { BuildIsLimited(t, h, pc, c, t', h'); }
    else if Claimed(pc).Some? { ClaimIsLimited(t, pc, c, t'); }
    else if pc.Insert? { InsertIsLimited(t, pc, c, t'); }
    else { LooseIsLimited(t, pc, c, t'); }
  }

  lemma BuildIsLimited(t: Tables, h: History, pc: Pc, c: Choice, t': Tables, h': History)
    requires Building(pc).Some? && WorkerTied(t, h, pc)
    requires t' == StepWorker(t, pc, c).0 && h' == Recorded(pc, c, h)
    ensures CompletedKept(t, t') && Limited(t, h, t', h', pc, c)
    ensures forall i :: i in h ==> i in h' && h'[i] == h[i]
  {
    var id := Building(pc).value;
    assert t'.imports == t.imports[id := t'.imports[id]];
    assert !IsCompleted(t, id);
  }

  lemma ClaimIsLimited(t: Tables, pc: Pc, c: Choice, t': Tables)
    requires Building(pc).None? && Claimed(pc).Some? && Claimed(pc).value in t.imports && t' == StepWorker(t, pc, c).0
    ensures CompletedKept(t, t')
    ensures forall i :: i in t.imports ==> i in t'.imports && t'.imports[i].digest == t.imports[i].digest
    ensures forall i :: i in t.imports && i != Claimed(pc).value ==> t'.imports[i] == t.imports[i]
  {
    var id := Claimed(pc).value;
    assert t'.imports == t.imports[id := t'.imports[id]];
  }

  lemma InsertIsLimited(t: Tables, pc: Pc, c: Choice, t': Tables)
    requires pc.Insert? && c.freshId !in t.imports && t' == StepWorker(t, pc, c).0
    ensures CompletedKept(t, t')
    ensures forall i :: i in t.imports ==> i in t'.imports && t'.imports[i] == t.imports[i]
  {
    assert t'.imports == t.imports[c.freshId := t'.imports[c.freshId]];
  }

  lemma LooseIsLimited(t: Tables, pc: Pc, c: Choice, t': Tables)
    requires Claimed(pc).None? && !pc.Insert? && t' == StepWorker(t, pc, c).0
    ensures CompletedKept(t, t')
    ensures forall i :: i in t.imports ==>
      && i in t'.imports
      && (Touched(pc, c) != Some(i) ==> t'.imports[i] == t.imports[i])
      && t'.imports[i] == t.imports[i].(status := t'.imports[i].status)
      && (t'.imports[i].status == t.imports[i].status || Early(t'.imports[i].status))
  {}

  lemma OwnedKept(t: Tables, t': Tables, s: SessionId, d: Digest)
    requires CompletedKept(t, t') && Owned(t, s, d)
    ensures Owned(t', s, d)
  {
    var j :| IsCompleted(t, j) && t.imports[j].session == Some(s) && t.imports[j].digest == d;
    assert IsCompleted(t', j);
  }

  lemma UntouchedRowsTied(t: Tables, h: History, t': Tables, h': History, pc: Pc, c: Choice, i: ImportId)
    requires RowsTied(t, h) && CompletedKept(t, t') && Limited(t, h, t', h', pc, c)
    requires i in t.imports && Touched(pc, c) != Some(i)
    ensures RowTied(t', h', i)
  {
    assert RowTied(t, h, i);
    if i in h { OwnedKept(t, t', h[i].session, h[i].described); }
  }

  /** The row a worker touches stays tied. */
  lemma TouchedRowTied(t: Tables, h: History, pc: Pc, c: Choice, t': Tables, h': History, i: ImportId)
    requires Enabled(t, pc, c) && RowsTied(t, h) && WorkerTied(t, h, pc)
    requires t' == StepWorker(t, pc, c).0 && h' == Recorded(pc, c, h) && Touched(pc, c) == Some(i) && i in t'.imports
    ensures RowTied(t', h', i)
  {
    StepIsLimited(t, h, pc, c, t', h');
    if i in t.imports {
      assert RowTied(t, h, i);
      if i in h { OwnedKept(t, t', h[i].session, h[i].described); }
      else if i in h' { OwnedKept(t, t', h'[i].session, h'[i].described); }
    }
  }

  lemma OwnWorkerTied(t: Tables, h: History, pc: Pc, c: Choice, t': Tables, h': History)
    requires Enabled(t, pc, c) && RowsTied(t, h) && WorkerTied(t, h, pc)
    requires t' == StepWorker(t, pc, c).0 && h' == Recorded(pc, c, h)
    ensures WorkerTied(t', h', StepWorker(t, pc, c).1)
  {
    StepIsLimited(t, h, pc, c, t', h');
    if Building(pc).Some? || pc.Insert? || pc.Describe? {
      BuilderTied(t, h, pc, c, t', h', StepWorker(t, pc, c).1);
    } else {
      HolderTied(t, h, pc, c, t', StepWorker(t, pc, c).1);
    }
  }

  lemma BuilderTied(t: Tables, h: History, pc: Pc, c: Choice, t': Tables, h': History, pc': Pc)
    requires Building(pc).Some? || pc.Insert? || pc.Describe?
    requires Enabled(t, pc, c) && WorkerTied(t, h, pc) && CompletedKept(t, t') && forall id :: id in h ==> id in t.imports
    requires (t', pc') == StepWorker(t, pc, c) && h' == Recorded(pc, c, h)
    ensures WorkerTied(t', h', pc')
  {
    match pc
    case Describe(d) => if CompletedSession(t, c.found).Some? { assert IsCompleted(t, c.found.value); }
    case Insert(d, a) => if a.Some? { OwnedKept(t, t', a.value, d); }
    case Validate(id, d, a) => if a.Some? { OwnedKept(t, t', a.value, d); }
    case _ =>
  }

  lemma HolderTied(t: Tables, h: History, pc: Pc, c: Choice, t': Tables, pc': Pc)
    requires Building(pc).None? && !pc.Insert? && !pc.Describe?
    requires RowsTied(t, h) && WorkerTied(t, h, pc)
    requires (t', pc') == StepWorker(t, pc, c)
    requires forall i :: i in t.imports ==> i in t'.imports && t'.imports[i].digest == t.imports[i].digest
    ensures WorkerTied(t', h, pc')
  {
    if pc.Fetch? && pc.id in t.imports { assert RowTied(t, h, pc.id); }
  }

  lemma OtherWorkerTied(t: Tables, h: History, t': Tables, h': History, pc: Pc, c: Choice, q: Pc)
    requires CompletedKept(t, t') && Limited(t, h, t', h', pc, c) && WorkerTied(t, h, q)
    requires Building(pc).Some? ==> Claimed(q) != Building(pc)
    requires Building(q).Some? ==> Claimed(pc) != Building(q)
    requires pc.Insert? ==> c.freshId !in t.imports
    ensures WorkerTied(t', h', q)
  {
    if Claimed(q).Some? { assert LimitedAt(t, h, t', h', pc, c, Claimed(q).value); }
    if Building(q).Some? || q.Insert? { BuilderUndisturbed(t, h, t', h', q); }
    else if Claimed(q).Some? { HolderUndisturbed(t, h, t', h', q, Claimed(q).value); }
  }

  lemma BuilderUndisturbed(t: Tables, h: History, t': Tables, h': History, q: Pc)
    requires CompletedKept(t, t') && WorkerTied(t, h, q) && (Building(q).Some? || q.Insert?)
    requires Building(q).Some? ==>
      var i := Building(q).value;
      && i in t'.imports && t'.imports[i] == t.imports[i].(status := t'.imports[i].status)
      && (t'.imports[i].status == t.imports[i].status || Early(t'.imports[i].status))
      && (i in h' <==> i in h) && (i in h ==> h'[i] == h[i])
    ensures WorkerTied(t', h', q)
  {
    match q
    case Insert(d, a) => if a.Some? { OwnedKept(t, t', a.value, d); }
    case Validate(id, d, a) => if a.Some? { OwnedKept(t, t', a.value, d); }
    case Archive(id, d, a) => if a.Some? { OwnedKept(t, t', a.value, d); }
    case _ =>
  }

  lemma HolderUndisturbed(t: Tables, h: History, t': Tables, h': History, q: Pc, i: ImportId)
    requires WorkerTied(t, h, q) && Building(q).None? && Claimed(q) == Some(i)
    requires i in t'.imports && t'.imports[i].digest == t.imports[i].digest && (i in h' <==> i in h) && (i in h ==> h'[i] == h[i])
    ensures WorkerTied(t', h', q)
  {}

  // ----------------------------------------------------------------------------- the run

  lemma PossibleEnables(sys: System, w: WorkerId, c: Choice)
    requires Possible(sys, Advance(w, c))
    ensures Enabled(sys.tables, sys.workers[w], c)
  {}

  lemma AdvanceKeepsApart(sys: System, h: History, w: WorkerId, c: Choice)
    requires Tied(sys, h) && Possible(sys, Advance(w, c))
    ensures Apart(Next(sys, Advance(w, c)))
  {
    var pc, t := sys.workers[w], sys.tables;
    var pc' := StepWorker(t, pc, c).1;
    forall v | v in sys.workers && v != w
      ensures Building(pc').Some? ==> Claimed(sys.workers[v]) != Building(pc')
      ensures Building(sys.workers[v]).Some? ==> Claimed(pc') != Building(sys.workers[v])
    {
      assert WorkerTied(t, h, sys.workers[v]);
    }
  }

  lemma AdvanceKeepsRows(t: Tables, h: History, pc: Pc, c: Choice, t': Tables, h': History)
    requires Enabled(t, pc, c) && RowsTied(t, h) && WorkerTied(t, h, pc)
    requires t' == StepWorker(t, pc, c).0 && h' == Recorded(pc, c, h)
    ensures RowsTied(t', h')
  {
    StepIsLimited(t, h, pc, c, t', h');
    forall i | i in t'.imports ensures RowTied(t', h', i) {
      if Touched(pc, c) == Some(i) { TouchedRowTied(t, h, pc, c, t', h', i); } else { UntouchedRowsTied(t, h, t', h', pc, c, i); }
    }
  }

  lemma StepKeepsTied(sys: System, h: History, s: Step, next: System, h': History)
    requires Tied(sys, h) && Possible(sys, s) && next == Next(sys, s)
    requires h' == if s.Advance? then Recorded(sys.workers[s.worker], s.choice, h) else h
    ensures Tied(next, h') && CompletedKept(sys.tables, next.tables)
    ensures forall i :: i in h ==> i in h' && h'[i] == h[i]
  {
    if s.Advance? {
      var pc, c, t, t' := sys.workers[s.worker], s.choice, sys.tables, next.tables;
      PossibleEnables(sys, s.worker, c);
      StepIsLimited(t, h, pc, c, t', h');
      AdvanceKeepsRows(t, h, pc, c, t', h');
      forall w | w in next.workers ensures WorkerTied(t', h', next.workers[w]) {
        if w == s.worker { OwnWorkerTied(t, h, pc, c, t', h'); }
        else { OtherWorkerTied(t, h, t', h', pc, c, sys.workers[w]); }
      }
      AdvanceKeepsApart(sys, h, s.worker, c);
    }
  }

  lemma InitialIsTied(start: System)
    requires Initial(start)
    ensures Tied(start, map[])
  {}

  lemma {:induction false} RunKeepsTied(start: System, steps: seq<Step>)
    requires Initial(start) && PossibleRun(start, steps)
    ensures Tied(Run(start, steps), Adoptions(start, steps))
  {
    if |steps| == 0 {
      InitialIsTied(start);
    } else {
      var front, s := steps[..|steps| - 1], steps[|steps| - 1];
      LastStepPossible(start, steps);
      RunKeepsTied(start, front);
      StepKeepsTied(Run(start, front), Adoptions(start, front), s, Run(start, steps), Adoptions(start, steps));
    }
  }

  lemma {:induction false} RunGrows(start: System, steps: seq<Step>, n: nat)
    requires Initial(start) && PossibleRun(start, steps) && n <= |steps|
    ensures CompletedKept(Run(start, steps[..n]).tables, Run(start, steps).tables)
    ensures var early, late := Adoptions(start, steps[..n]), Adoptions(start, steps);
      forall i :: i in early ==> i in late && late[i] == early[i]
    decreases |steps|
  {
    if n == |steps| {
      assert steps[..n] == steps;
    } else {
      var front := steps[..|steps| - 1];
      LastStepPossible(start, steps);
      RunKeepsTied(start, front);
      RunGrows(start, front, n);
      assert front[..n] == steps[..n];
      StepKeepsTied(Run(start, front), Adoptions(start, front), steps[|steps| - 1], Run(start, steps), Adoptions(start, steps));
    }
  }

  // --------------------------------------------- what runs keep about one checksum pair

  /** A session held for the checksums `d` is theirs. */
  predicate Matches(d: Digest, s: Option<SessionId>, digest: Digest) { s.Some? && digest == d ==> s.value == StableSession(d) }

  /** Every session of imports with the checksums `d`, and every one adopted for them without a change, is theirs. */
  ghost predicate RowsMatch(t: Tables, h: History, d: Digest) {
    && (forall i :: i in t.imports && i !in h ==> Matches(d, t.imports[i].session, t.imports[i].digest) && Matches(d, t.imports[i].adopted, t.imports[i].digest))
    && (forall i :: i in h && !Strayed(h, i) ==> Matches(d, Some(h[i].session), h[i].described))
  }

  ghost predicate WorkerMatches(t: Tables, h: History, pc: Pc, d: Digest)
    requires Claimed(pc).Some? ==> Claimed(pc).value in t.imports
  {
    match pc
    case Offer(id, s) => id !in h ==> Matches(d, Some(s), t.imports[id].digest)
    case Decide(id, r) => id !in h ==> Matches(d, r.session, r.digest) && Matches(d, r.adopted, r.digest)
    case BeginAdopted(id, s) => id !in h ==> Matches(d, Some(s), t.imports[id].digest)
    case BeginPublish(id, r) => Matches(d, r.session, r.digest)
    case Complete(id, s) => id !in h ==> Matches(d, Some(s), t.imports[id].digest)
    case Reread(id, s) => Matches(d, Some(s), t.imports[id].digest)
    case PublishRows(id, s) => Matches(d, Some(s), t.imports[id].digest)
    case _ => true
  }

  ghost predicate Matching(sys: System, h: History, d: Digest)
    requires Tied(sys, h)
  {
    && RowsMatch(sys.tables, h, d)
    && (forall w :: w in sys.workers ==> WorkerTied(sys.tables, h, sys.workers[w]) && WorkerMatches(sys.tables, h, sys.workers[w], d))
  }

  /** Completed imports that strayed to the checksums `d` had, as it happens, adopted their session. */
  ghost predicate SoundStrays(t: Tables, h: History, d: Digest) {
    forall i :: IsCompleted(t, i) && Strayed(h, i) && h[i].archived == d ==> h[i].session == StableSession(d)
  }

  lemma CompletedMatches(t: Tables, h: History, j: ImportId, d: Digest)
    requires RowsTied(t, h) && RowsMatch(t, h, d) && SoundStrays(t, h, d)
    requires IsCompleted(t, j) && t.imports[j].digest == d && t.imports[j].session.Some?
    ensures t.imports[j].session == Some(StableSession(d))
  {
    assert RowTied(t, h, j);
  }

  lemma OwnedMatches(t: Tables, h: History, s: SessionId, d: Digest)
    requires RowsTied(t, h) && RowsMatch(t, h, d) && SoundStrays(t, h, d) && Owned(t, s, d)
    ensures s == StableSession(d)
  {
    var j :| IsCompleted(t, j) && t.imports[j].session == Some(s) && t.imports[j].digest == d;
    CompletedMatches(t, h, j, d);
  }

  lemma BuilderKeepsRowsMatch(t: Tables, h: History, pc: Pc, c: Choice, t': Tables, h': History, d: Digest)
    requires Building(pc).Some? || pc.Insert?
    requires Enabled(t, pc, c) && RowsTied(t, h) && WorkerTied(t, h, pc)
    requires RowsMatch(t, h, d) && WorkerMatches(t, h, pc, d) && SoundStrays(t, h, d)
    requires t' == StepWorker(t, pc, c).0 && h' == Recorded(pc, c, h)
    ensures RowsMatch(t', h', d)
  {
    if pc.Insert? {
      assert t'.imports == t.imports[c.freshId := t'.imports[c.freshId]];
    } else {
      if pc.Archive? {
        if pc.adopt.Some? && pc.digest == d { OwnedMatches(t, h, pc.adopt.value, d); }
      } else {
        var id := Building(pc).value;
        assert t'.imports == t.imports[id := t'.imports[id]];
        if id !in h { BuiltRowMatches(t, h, pc, c, t', id, d); }
        RowUpdateMatches(t, h, t', id, d);
      }
    }
  }

  lemma RowUpdateMatches(t: Tables, h: History, t': Tables, id: ImportId, d: Digest)
    requires RowsMatch(t, h, d) && id in t'.imports && t'.imports == t.imports[id := t'.imports[id]]
    requires id !in h ==> Matches(d, t'.imports[id].session, t'.imports[id].digest) && Matches(d, t'.imports[id].adopted, t'.imports[id].digest)
    ensures RowsMatch(t', h, d)
  {}

  lemma BuiltRowMatches(t: Tables, h: History, pc: Pc, c: Choice, t': Tables, id: ImportId, d: Digest)
    requires Building(pc) == Some(id) && WorkerTied(t, h, pc) && WorkerMatches(t, h, pc, d) && id !in h
    requires Matches(d, t.imports[id].adopted, t.imports[id].digest) && t' == StepWorker(t, pc, c).0
    ensures Matches(d, t'.imports[id].session, t'.imports[id].digest) && Matches(d, t'.imports[id].adopted, t'.imports[id].digest)
  {}

  lemma HolderKeepsRowsMatch(t: Tables, h: History, pc: Pc, c: Choice, t': Tables, d: Digest)
    requires Building(pc).None? && !pc.Insert?
    requires RowsTied(t, h) && WorkerTied(t, h, pc) && RowsMatch(t, h, d) && WorkerMatches(t, h, pc, d)
    requires t' == StepWorker(t, pc, c).0
    ensures RowsMatch(t', h, d)
  {
    if Claimed(pc).Some? {
      var id := Claimed(pc).value;
      assert t'.imports == t.imports[id := t'.imports[id]];
      if id !in h { ClaimedRowMatches(t, h, pc, c, t', id, d); }
      RowUpdateMatches(t, h, t', id, d);
    } else {
      LooseIsLimited(t, pc, c, t');
      assert t'.imports.Keys == t.imports.Keys;
    }
  }

  lemma ClaimedRowMatches(t: Tables, h: History, pc: Pc, c: Choice, t': Tables, id: ImportId, d: Digest)
    requires Building(pc).None? && Claimed(pc) == Some(id) && id in t.imports && id !in h
    requires WorkerMatches(t, h, pc, d) && t' == StepWorker(t, pc, c).0
    requires Matches(d, t.imports[id].session, t.imports[id].digest) && Matches(d, t.imports[id].adopted, t.imports[id].digest)
    ensures Matches(d, t'.imports[id].session, t'.imports[id].digest) && Matches(d, t'.imports[id].adopted, t'.imports[id].digest)
  {}

  lemma OwnWorkerMatches(t: Tables, h: History, pc: Pc, c: Choice, t': Tables, h': History, pc': Pc, d: Digest)
    requires Enabled(t, pc, c) && RowsTied(t, h) && WorkerTied(t, h, pc)
    requires RowsMatch(t, h, d) && WorkerMatches(t, h, pc, d) && SoundStrays(t, h, d)
    requires (t', pc') == StepWorker(t, pc, c) && h' == Recorded(pc, c, h) && WorkerTied(t', h', pc')
    ensures WorkerMatches(t', h', pc', d)
  {
    if pc.Decide? { DecisionMatches(t, h, pc, c, pc', d); }
    else if pc.Read? { OfferMatches(t, h, pc, c, t', pc', d); }
    else if pc.Fetch? || pc.BeginAdopted? || pc.BeginPublish? || pc.Reread? { HeldSessionMatches(t, h, pc, c, t', pc', d); }
  }

  lemma DecisionMatches(t: Tables, h: History, pc: Pc, c: Choice, pc': Pc, d: Digest)
    requires pc.Decide? && Enabled(t, pc, c) && RowsTied(t, h) && WorkerTied(t, h, pc)
    requires RowsMatch(t, h, d) && WorkerMatches(t, h, pc, d) && SoundStrays(t, h, d) && pc' == StepWorker(t, pc, c).1
    ensures Claimed(pc').Some? && Claimed(pc').value in t.imports && WorkerMatches(t, h, pc', d)
  {
    if CompletedSession(t, c.found).Some? && pc.record.digest == d { CompletedMatches(t, h, c.found.value, d); }
  }

  lemma OfferMatches(t: Tables, h: History, pc: Pc, c: Choice, t': Tables, pc': Pc, d: Digest)
    requires pc.Read? && WorkerTied(t, h, pc) && (t', pc') == StepWorker(t, pc, c) && WorkerTied(t', h, pc')
    ensures WorkerMatches(t', h, pc', d)
  {}

  lemma HeldSessionMatches(t: Tables, h: History, pc: Pc, c: Choice, t': Tables, pc': Pc, d: Digest)
    requires pc.Fetch? || pc.BeginAdopted? || pc.BeginPublish? || pc.Reread?
    requires RowsTied(t, h) && WorkerTied(t, h, pc) && RowsMatch(t, h, d) && WorkerMatches(t, h, pc, d)
    requires (t', pc') == StepWorker(t, pc, c) && WorkerTied(t', h, pc')
    ensures WorkerMatches(t', h, pc', d)
  {}

  lemma OtherWorkerMatches(t: Tables, h: History, t': Tables, h': History, pc: Pc, c: Choice, q: Pc, d: Digest)
    requires Limited(t, h, t', h', pc, c) && WorkerTied(t, h, q) && WorkerMatches(t, h, q, d) && WorkerTied(t', h', q)
    requires Building(pc).Some? ==> Claimed(q) != Building(pc)
    requires pc.Insert? ==> c.freshId !in t.imports
    ensures WorkerMatches(t', h', q, d)
  {}

  lemma StepKeepsMatching(sys: System, h: History, s: Step, next: System, h': History, d: Digest)
    requires Tied(sys, h) && Matching(sys, h, d) && SoundStrays(sys.tables, h, d) && Possible(sys, s) && next == Next(sys, s)
    requires h' == (if s.Advance? then Recorded(sys.workers[s.worker], s.choice, h) else h) && Tied(next, h')
    ensures Matching(next, h', d)
  {
    if s.Advance? {
      var pc, c, t, t' := sys.workers[s.worker], s.choice, sys.tables, next.tables;
      PossibleEnables(sys, s.worker, c);
      StepIsLimited(t, h, pc, c, t', h');
      if Building(pc).Some? || pc.Insert? { BuilderKeepsRowsMatch(t, h, pc, c, t', h', d); }
      else { HolderKeepsRowsMatch(t, h, pc, c, t', d); }
      forall w | w in next.workers ensures WorkerMatches(t', h', next.workers[w], d) {
        if w == s.worker { OwnWorkerMatches(t, h, pc, c, t', h', next.workers[w], d); }
        else { OtherWorkerMatches(t, h, t', h', pc, c, sys.workers[w], d); }
      }
    }
  }

  lemma InitialMatches(start: System, d: Digest)
    requires Initial(start) && Tied(start, map[])
    ensures Matching(start, map[], d)
  {}

  /** A run that ends with sound strays had no others before. */
  lemma NoEarlierStray(start: System, steps: seq<Step>, n: nat, d: Digest)
    requires Initial(start) && PossibleRun(start, steps) && n <= |steps|
    requires SoundStrays(Run(start, steps).tables, Adoptions(start, steps), d)
    ensures SoundStrays(Run(start, steps[..n]).tables, Adoptions(start, steps[..n]), d)
  {
    RunGrows(start, steps, n);
  }

  lemma {:induction false} RunKeepsMatching(start: System, steps: seq<Step>, d: Digest)
    requires Initial(start) && PossibleRun(start, steps)
    requires SoundStrays(Run(start, steps).tables, Adoptions(start, steps), d)
    ensures Tied(Run(start, steps), Adoptions(start, steps)) && Matching(Run(start, steps), Adoptions(start, steps), d)
  {
    RunKeepsTied(start, steps);
    if |steps| == 0 {
      InitialMatches(start, d);
    } else {
      var front, s := steps[..|steps| - 1], steps[|steps| - 1];
      NoEarlierStray(start, steps, |steps| - 1, d);
      LastStepPossible(start, steps);
      RunKeepsTied(start, front);
      RunKeepsMatching(start, front, d);
      StepKeepsMatching(Run(start, front), Adoptions(start, front), s, Run(start, steps), Adoptions(start, steps), d);
    }
  }

  // ------------------------------------------------------------------------ the theorems

  lemma CompletedHasSession(start: System, steps: seq<Step>, i: ImportId)
    requires Initial(start) && PossibleRun(start, steps) && IsCompleted(Run(start, steps).tables, i)
    ensures Run(start, steps).tables.imports[i].session.Some?
  {
    CompletedImportsNameSessions(start, steps);
  }

  /**
    * A completed import that strayed, in any interleaving whatever else strayed, shares its
    * session with a completed import of other checksums: of those it was described by.
    */
  lemma StrayedSharesSession(start: System, steps: seq<Step>, i: ImportId)
    requires Initial(start) && PossibleRun(start, steps)
    requires IsCompleted(Run(start, steps).tables, i) && Strayed(Adoptions(start, steps), i)
    ensures var t, a := Run(start, steps).tables, Adoptions(start, steps)[i];
      && t.imports[i].digest == a.archived != a.described && t.imports[i].session == Some(a.session)
      && exists j :: IsCompleted(t, j) && t.imports[j].digest == a.described && t.imports[j].session == t.imports[i].session
  {
    var t, h := Run(start, steps).tables, Adoptions(start, steps);
    RunKeepsTied(start, steps);
    CompletedHasSession(start, steps, i);
    assert RowTied(t, h, i);
    var j :| IsCompleted(t, j) && t.imports[j].session == Some(h[i].session) && t.imports[j].digest == h[i].described;
  }

  /**
    * For every checksum pair, in every interleaving and whatever strayed elsewhere: its completed
    * imports all have its session exactly when those that strayed to it had adopted that very
    * session.
    */
  lemma SessionOfPairIff(start: System, steps: seq<Step>, d: Digest)
    requires Initial(start) && PossibleRun(start, steps)
    ensures var t := Run(start, steps).tables;
      (forall i :: IsCompleted(t, i) && t.imports[i].digest == d ==> t.imports[i].session == Some(StableSession(d)))
      <==> SoundStrays(t, Adoptions(start, steps), d)
  {
    var t, h := Run(start, steps).tables, Adoptions(start, steps);
    if SoundStrays(t, h, d) {
      RunKeepsMatching(start, steps, d);
      forall i | IsCompleted(t, i) && t.imports[i].digest == d ensures t.imports[i].session == Some(StableSession(d)) {
        CompletedHasSession(start, steps, i);
        CompletedMatches(t, h, i, d);
      }
    } else {
      var i :| IsCompleted(t, i) && Strayed(h, i) && h[i].archived == d && h[i].session != StableSession(d);
      AdoptedRow(start, steps, i);
    }
  }

  /** A completed import has the session of its checksums unless some completed import strayed to them. */
  lemma UnstrayedSessionsMatch(start: System, steps: seq<Step>, i: ImportId)
    requires Initial(start) && PossibleRun(start, steps) && IsCompleted(Run(start, steps).tables, i)
    requires var t, h := Run(start, steps).tables, Adoptions(start, steps);
      forall k :: IsCompleted(t, k) && Strayed(h, k) ==> h[k].archived != t.imports[i].digest
    ensures var r := Run(start, steps).tables.imports[i]; r.session == Some(StableSession(r.digest))
  {
    SessionOfPairIff(start, steps, Run(start, steps).tables.imports[i].digest);
  }

  /**
    * In every interleaving, completed imports share a session exactly with those of equal
    * checksums if and only if no completed import adopted a session and then archived another
    * file than it had described.
    */
  lemma OneSessionPerChecksumPairIff(start: System, steps: seq<Step>)
    requires Initial(start) && PossibleRun(start, steps)
    ensures OneSessionEach(Run(start, steps).tables)
      <==> NoCompletedStray(Run(start, steps).tables, Adoptions(start, steps))
  {
    var t, h := Run(start, steps).tables, Adoptions(start, steps);
    if NoCompletedStray(t, h) {
      forall i | IsCompleted(t, i) ensures t.imports[i].session == Some(StableSession(t.imports[i].digest)) {
        UnstrayedSessionsMatch(start, steps, i);
      }
    } else {
      var i :| IsCompleted(t, i) && Strayed(h, i);
      StrayedSharesSession(start, steps, i);
    }
  }

  /** No file of an import that adopted a session changes; others may change freely. */
  ghost predicate AdoptingFilesUnchanged(start: System, steps: seq<Step>) {
    forall n :: 0 <= n < |steps| ==> FileKept(Run(start, steps[..n]), steps[n])
  }

  predicate FileKept(sys: System, s: Step) {
    s.Advance? && s.worker in sys.workers && sys.workers[s.worker].Archive? && sys.workers[s.worker].adopt.Some? && s.choice.ok ==>
      s.choice.archived == sys.workers[s.worker].digest
  }

  lemma {:induction false} NothingStrays(start: System, steps: seq<Step>, i: ImportId)
    requires AdoptingFilesUnchanged(start, steps)
    ensures !Strayed(Adoptions(start, steps), i)
  {
    if |steps| > 0 {
      var front := steps[..|steps| - 1];
      assert forall n :: 0 <= n < |front| ==> front[..n] == steps[..n];
      NothingStrays(start, front, i);
      assert FileKept(Run(start, steps[..|steps| - 1]), steps[|steps| - 1]);
    }
  }

  /**
    * While no file changes behind an import that adopted a session, completed imports have the
    * session of their checksums, and so share one exactly when their checksums are equal.
    */
  lemma OneSessionPerChecksumPair(start: System, steps: seq<Step>, i: ImportId, j: ImportId)
    requires Initial(start) && PossibleRun(start, steps) && AdoptingFilesUnchanged(start, steps)
    requires IsCompleted(Run(start, steps).tables, i) && IsCompleted(Run(start, steps).tables, j)
    ensures var t := Run(start, steps).tables;
      && t.imports[i].session == Some(StableSession(t.imports[i].digest))
      && (t.imports[i].session == t.imports[j].session <==> t.imports[i].digest == t.imports[j].digest)
  {
    forall n ensures !Strayed(Adoptions(start, steps), n) { NothingStrays(start, steps, n); }
    UnstrayedSessionsMatch(start, steps, i);
    UnstrayedSessionsMatch(start, steps, j);
  }

  /**
    * When the imports completed so far with the checksums a worker described are sound, and the
    * worker has adopted a session and archives its files, its import, if it ever completes and
    * whatever happens in between, has the session of its checksums exactly when the files are
    * the ones it described.
    */
  lemma AdoptionSoundIff(start: System, steps: seq<Step>, n: nat, id: ImportId, described: Digest, session: SessionId)
    requires Initial(start) && PossibleRun(start, steps) && n < |steps|
    requires var sys := Run(start, steps[..n]);
      && steps[n].Advance? && steps[n].choice.ok
      && steps[n].worker in sys.workers && sys.workers[steps[n].worker] == Archive(id, described, Some(session))
      && SoundStrays(sys.tables, Adoptions(start, steps[..n]), described)
    requires IsCompleted(Run(start, steps).tables, id)
    ensures var r := Run(start, steps).tables.imports[id];
      r.digest == steps[n].choice.archived && (r.session == Some(StableSession(r.digest)) <==> described == steps[n].choice.archived)
  {
    PrefixFacts(start, steps, n);
    AdoptedIsStable(start, steps[..n], steps[n].worker, id, described, session);
    AdoptionNoted(start, steps, n, id, described, session);
    RunGrows(start, steps, n + 1);
    AdoptedRow(start, steps, id);
  }

  lemma AdoptedIsStable(start: System, steps: seq<Step>, w: WorkerId, id: ImportId, described: Digest, session: SessionId)
    requires Initial(start) && PossibleRun(start, steps) && SoundStrays(Run(start, steps).tables, Adoptions(start, steps), described)
    requires var sys := Run(start, steps); w in sys.workers && sys.workers[w] == Archive(id, described, Some(session))
    ensures session == StableSession(described)
  {
    RunKeepsMatching(start, steps, described);
    assert WorkerTied(Run(start, steps).tables, Adoptions(start, steps), Run(start, steps).workers[w]);
    OwnedMatches(Run(start, steps).tables, Adoptions(start, steps), session, described);
  }

  lemma AdoptionNoted(start: System, steps: seq<Step>, n: nat, id: ImportId, described: Digest, session: SessionId)
    requires n < |steps| && steps[n].Advance? && steps[n].choice.ok
    requires var sys := Run(start, steps[..n]);
      steps[n].worker in sys.workers && sys.workers[steps[n].worker] == Archive(id, described, Some(session))
    ensures var h := Adoptions(start, steps[..n + 1]); id in h && h[id] == Adoption(session, described, steps[n].choice.archived)
  {
    assert steps[..n + 1][..n] == steps[..n];
  }

  lemma AdoptedRow(start: System, steps: seq<Step>, id: ImportId)
    requires Initial(start) && PossibleRun(start, steps) && IsCompleted(Run(start, steps).tables, id) && id in Adoptions(start, steps)
    ensures var r, a := Run(start, steps).tables.imports[id], Adoptions(start, steps)[id];
      r.digest == a.archived && r.session == Some(a.session)
  {
    RunKeepsTied(start, steps);
    CompletedHasSession(start, steps, id);
    assert RowTied(Run(start, steps).tables, Adoptions(start, steps), id);
  }
}
