/**
  * The latest-flow service (experimental_flow/service.py): one stored snapshot and one stored
  * payload per session. Each stored snapshot is compared with its predecessor once, so volume
  * is counted exactly once; the theorems say for which runs.
  */
module FlowService {
  import opened Maybe
  import opened Lists
  import opened Grouping
  import opened FlowEstimator
  import OptionRights

  /** The text of a snapshot time: missing, not a time, or a time. */
  datatype TimeText = Missing | Unparsable | At(time: int)

  datatype Snapshot = Snapshot(sessionId: Option<string>, time: TimeText, spot: Option<real>, rows: seq<SourceRow>)

  datatype Pair = Pair(previous: Snapshot, current: Snapshot)

  datatype Payload = EmptyFor(current: Snapshot) | Computed(pair: Pair)

  datatype Memory = Memory(snapshots: map<string, Snapshot>, payloads: map<string, Payload>)

  datatype Call = Call(current: Snapshot, supplied: Option<Snapshot>)

  function SessionKey(s: Snapshot): string { OrElse(s.sessionId, Some("unknown-session")).value }

  predicate Earlier(a: TimeText, b: TimeText) { a.At? && b.At? && a.time < b.time }

  function ContractRows(p: Pair): seq<ContractFlow> {
    ContractFlows(p.current.rows, p.previous.rows, OrElse(p.current.spot, Some(0.0)).value)
  }

  /** Strike rows are present exactly when contract rows are. */
  predicate PayloadHasRows(p: Payload) { p.Computed? && ContractRows(p.pair) != [] }

  // --------------------------------------------------------------------- one call

  predicate Candidate(current: TimeText, s: Option<Snapshot>) {
    s.Some? && s.value.rows != [] && Earlier(s.value.time, current)
  }

  /** The newer of the stored and the supplied snapshot, of those with rows before `current`. */
  function NewestBefore(current: TimeText, stored: Option<Snapshot>, supplied: Option<Snapshot>): Option<Snapshot> {
    if Candidate(current, stored) && Candidate(current, supplied)
    then if supplied.value.time.time > stored.value.time.time then supplied else stored
    else if Candidate(current, stored) then stored
    else if Candidate(current, supplied) then supplied
    else None
  }

  predicate NotNewerThanStored(current: TimeText, stored: Option<Snapshot>) {
    stored.Some? && current.At? && stored.value.time.At? && current.time <= stored.value.time.time
  }

  function CachedOr(mem: Memory, key: string, fallback: Payload): Payload {
    OrElse(Lookup(mem.payloads, key), Some(fallback)).value
  }

  /** The pair a call compares, if it compares any. */
  function Compared(mem: Memory, call: Call): Option<Pair> {
    var previous := NewestBefore(call.current.time, Lookup(mem.snapshots, SessionKey(call.current)), call.supplied);
    if call.current.rows == [] || previous.None? then None else Some(Pair(previous.value, call.current))
  }

  predicate Stores(mem: Memory, call: Call) {
    call.current.rows != []
    && (Compared(mem, call).Some? || !NotNewerThanStored(call.current.time, Lookup(mem.snapshots, SessionKey(call.current))))
  }

  function Step(mem: Memory, call: Call): Memory {
    var key, pair := SessionKey(call.current), Compared(mem, call);
    Memory(
      if Stores(mem, call) then mem.snapshots[key := call.current] else mem.snapshots,
      if pair.Some? && PayloadHasRows(Computed(pair.value)) then mem.payloads[key := Computed(pair.value)] else mem.payloads)
  }

  function Response(mem: Memory, call: Call): Payload {
    var pair := Compared(mem, call);
    var key := SessionKey(call.current);
    if pair.Some? && PayloadHasRows(Computed(pair.value)) then Computed(pair.value)
    else if pair.Some? then CachedOr(mem, key, Computed(pair.value))
    else if Stores(mem, call) then EmptyFor(call.current)
    else CachedOr(mem, key, EmptyFor(call.current))
  }

  // ------------------------------------------------------------ what one call does

  /** A snapshot with rows that is earlier than `time`. */
  predicate Precedes(s: Option<Snapshot>, time: TimeText) {
    s.Some? && |s.value.rows| > 0 && s.value.time.At? && time.At? && s.value.time.time < time.time
  }

  /** `p` is the later one of those two snapshots that precede `time`, the stored one if they are equally late. */
  predicate Predecessor(p: Snapshot, stored: Option<Snapshot>, supplied: Option<Snapshot>, time: TimeText) {
    if stored == Some(p) && Precedes(stored, time) then Precedes(supplied, time) ==> supplied.value.time.time <= p.time.time
    else supplied == Some(p) && Precedes(supplied, time) && (Precedes(stored, time) ==> stored.value.time.time < p.time.time)
  }

  lemma NewestIsPredecessor(time: TimeText, stored: Option<Snapshot>, supplied: Option<Snapshot>)
    ensures match NewestBefore(time, stored, supplied)
      case Some(p) => Predecessor(p, stored, supplied, time)
      case None => !Precedes(stored, time) && !Precedes(supplied, time)
  {}

  /** The session's payload stays, and is the answer if there is one. */
  predicate AnswersStored(mem: Memory, key: string, otherwise: Payload, next: Memory, payload: Payload) {
    next.payloads == mem.payloads && payload == if key in mem.payloads then mem.payloads[key] else otherwise
  }

  /** A comparison with contract rows is stored and answered; one without leaves the stored payload. */
  predicate AnswersComparison(mem: Memory, key: string, pair: Pair, next: Memory, payload: Payload) {
    && next.snapshots == mem.snapshots[key := pair.current]
    && if |ContractRows(pair)| > 0 then payload == Computed(pair) && next.payloads == mem.payloads[key := payload]
       else AnswersStored(mem, key, Computed(pair), next, payload)
  }

  /** A snapshot that nothing precedes is refused if the stored one is as late, and else stored without a comparison. */
  predicate AnswersWithout(mem: Memory, key: string, current: Snapshot, next: Memory, payload: Payload) {
    if key in mem.snapshots && mem.snapshots[key].time.At? && current.time.At? && current.time.time <= mem.snapshots[key].time.time
    then next.snapshots == mem.snapshots && AnswersStored(mem, key, EmptyFor(current), next, payload)
    else next == mem.(snapshots := mem.snapshots[key := current]) && payload == EmptyFor(current)
  }

  /** What one call stores and answers, for every memory. */
  lemma CallMeaning(mem: Memory, call: Call, key: string, stored: Option<Snapshot>, next: Memory, payload: Payload)
    requires next == Step(mem, call) && payload == Response(mem, call)
    requires key == (if call.current.sessionId.Some? then call.current.sessionId.value else "unknown-session")
    requires stored == if key in mem.snapshots then Some(mem.snapshots[key]) else None
    ensures |call.current.rows| == 0 ==> next.snapshots == mem.snapshots && AnswersStored(mem, key, EmptyFor(call.current), next, payload)
    ensures |call.current.rows| > 0 && (Precedes(stored, call.current.time) || Precedes(call.supplied, call.current.time)) ==>
      exists p :: Predecessor(p, stored, call.supplied, call.current.time)
        && AnswersComparison(mem, key, Pair(p, call.current), next, payload)
    ensures |call.current.rows| > 0 && !Precedes(stored, call.current.time) && !Precedes(call.supplied, call.current.time) ==>
      AnswersWithout(mem, key, call.current, next, payload)
  {
    NewestIsPredecessor(call.current.time, stored, call.supplied);
    assert SessionKey(call.current) == key && Lookup(mem.snapshots, key) == stored;
    if |call.current.rows| > 0 && NewestBefore(call.current.time, stored, call.supplied).Some? {
      var p := NewestBefore(call.current.time, stored, call.supplied).value;
      assert Predecessor(p, stored, call.supplied, call.current.time) && AnswersComparison(mem, key, Pair(p, call.current), next, payload);
    }
  }

  class FlowMemory {
    var snapshots: map<string, Snapshot>
    var payloads: map<string, Payload>

    ghost function Contents(): Memory
      reads this
    {
      Memory(snapshots, payloads)
    }

    constructor ()
      ensures Contents() == Memory(map[], map[])
    {
      snapshots, payloads := map[], map[];
    }

    method BuildLatest(current: Snapshot, supplied: Option<Snapshot>) returns (payload: Payload)
      modifies this
      ensures Contents() == Step(old(Contents()), Call(current, supplied))
      ensures payload == Response(old(Contents()), Call(current, supplied))
    {
      var key := SessionKey(current);
      var stored := Lookup(snapshots, key);
      var previous := NewestBefore(current.time, stored, supplied);
      var empty := CachedOr(Memory(snapshots, payloads), key, EmptyFor(current));
      if current.rows == [] {
        return empty;
      }
      if previous.None? {
        if NotNewerThanStored(current.time, stored) {
          return empty;
        }
        snapshots := snapshots[key := current];
        return EmptyFor(current);
      }
      if !Earlier(previous.value.time, current.time) {
        assert false;
        return empty;
      }
      payload := Computed(Pair(previous.value, current));
      snapshots := snapshots[key := current];
      if PayloadHasRows(payload) {
        payloads := payloads[key := payload];
        return;
      }
      return CachedOr(Memory(snapshots, payloads), key, payload);
    }
  }

  // ------------------------------------------------------------------------- runs

  function Run(mem: Memory, calls: seq<Call>): Memory {
    if |calls| == 0 then mem else Step(Run(mem, calls[..|calls| - 1]), calls[|calls| - 1])
  }

  /** The pairs a run compares for one session, in order. */
  function Pairs(mem: Memory, calls: seq<Call>, key: string): seq<Pair> {
    if |calls| == 0 then []
    else
      var before, last := calls[..|calls| - 1], calls[|calls| - 1];
      var pair := Compared(Run(mem, before), last);
      if SessionKey(last.current) == key && pair.Some? then Pairs(mem, before, key) + [pair.value] else Pairs(mem, before, key)
  }

  /** An accepted snapshot, and the earlier one it was compared with, if any. */
  datatype Link = Link(previous: Option<Snapshot>, current: Snapshot)

  function LastOf(chain: seq<Link>): Option<Snapshot> { if |chain| == 0 then None else Some(chain[|chain| - 1].current) }

  /** What a session accepts, from its calls alone, in order. */
  function Chain(calls: seq<Call>, key: string): seq<Link> {
    if |calls| == 0 then []
    else
      var rest, last := Chain(calls[..|calls| - 1], key), calls[|calls| - 1];
      if SessionKey(last.current) == key then Extended(rest, last) else rest
  }

  /** A snapshot with rows is accepted when an earlier one is at hand, or when it is not shown to be as old as the last. */
  function Extended(chain: seq<Link>, call: Call): seq<Link> {
    var previous := NewestBefore(call.current.time, LastOf(chain), call.supplied);
    if call.current.rows == [] || (previous.None? && NotNewerThanStored(call.current.time, LastOf(chain))) then chain
    else chain + [Link(previous, call.current)]
  }

  function PairsOf(chain: seq<Link>): seq<Pair> {
    if |chain| == 0 then []
    else
      var rest, last := PairsOf(chain[..|chain| - 1]), chain[|chain| - 1];
      if last.previous.Some? then rest + [Pair(last.previous.value, last.current)] else rest
  }

  function LastWithRows(pairs: seq<Pair>): Option<Payload> {
    if |pairs| == 0 then None
    else if PayloadHasRows(Computed(pairs[|pairs| - 1])) then Some(Computed(pairs[|pairs| - 1]))
    else LastWithRows(pairs[..|pairs| - 1])
  }

  const NOTHING: Memory := Memory(map[], map[])

  /**
    * For every run, supplied snapshots included: the compared pairs are those of the session's
    * chain, the stored snapshot is the end of the chain and the stored payload the last one
    * with rows.
    */
  lemma {:induction false} PairsAreLinks(calls: seq<Call>, key: string)
    ensures Lookup(Run(NOTHING, calls).snapshots, key) == LastOf(Chain(calls, key))
    ensures Pairs(NOTHING, calls, key) == PairsOf(Chain(calls, key))
    ensures Lookup(Run(NOTHING, calls).payloads, key) == LastWithRows(PairsOf(Chain(calls, key)))
  {
    if |calls| > 0 {
      var before, last := calls[..|calls| - 1], calls[|calls| - 1];
      PairsAreLinks(before, key);
      var rest := Chain(before, key);
      if SessionKey(last.current) == key {
        CallExtendsChain(Run(NOTHING, before), last, rest);
        LinkStep(rest, Extended(rest, last));
      } else {
        OtherSessionUntouched(Run(NOTHING, before), last, key);
      }
    }
  }

  /** One call on a session whose stored snapshot is the end of its chain. */
  lemma CallExtendsChain(mem: Memory, call: Call, chain: seq<Link>)
    requires Lookup(mem.snapshots, SessionKey(call.current)) == LastOf(chain)
    ensures var s, next := call.current, Extended(chain, call);
      && Lookup(Step(mem, call).snapshots, SessionKey(s)) == LastOf(next)
      && Compared(mem, call) ==
        if next != chain && next[|chain|].previous.Some? then Some(Pair(next[|chain|].previous.value, s)) else None
  {}

  lemma OtherSessionUntouched(mem: Memory, call: Call, key: string)
    requires SessionKey(call.current) != key
    ensures Lookup(Step(mem, call).snapshots, key) == Lookup(mem.snapshots, key)
    ensures Lookup(Step(mem, call).payloads, key) == Lookup(mem.payloads, key)
  {}

  lemma LinkStep(chain: seq<Link>, next: seq<Link>)
    requires next == chain || (|next| == |chain| + 1 && next[..|chain|] == chain)
    ensures next != chain && next[|chain|].previous.Some? ==>
      var p := Pair(next[|chain|].previous.value, next[|chain|].current);
      && PairsOf(next) == PairsOf(chain) + [p]
      && LastWithRows(PairsOf(next)) == if PayloadHasRows(Computed(p)) then Some(Computed(p)) else LastWithRows(PairsOf(chain))
    ensures next != chain && next[|chain|].previous.None? ==> PairsOf(next) == PairsOf(chain)
  {
    if next != chain && next[|chain|].previous.Some? {
      assert PairsOf(next)[..|PairsOf(chain)|] == PairsOf(chain);
    }
  }

  // ------------------------------------------------------------- when intervals overlap

  ghost predicate Timed(calls: seq<Call>, key: string) {
    forall i :: 0 <= i < |calls| && SessionKey(calls[i].current) == key && calls[i].current.rows != [] ==> calls[i].current.time.At?
  }

  /** A late arrival that is compared all the same, with an even earlier snapshot its caller supplies. */
  predicate GoesBack(chain: seq<Link>, call: Call) {
    && call.current.rows != [] && NotNewerThanStored(call.current.time, LastOf(chain))
    && NewestBefore(call.current.time, LastOf(chain), call.supplied).Some?
  }

  /**
    * While the stored time does not parse nothing is refused: a snapshot not newer than an
    * accepted one, or one compared with a supplied snapshot older than an accepted one.
    */
  predicate SlipsBack(chain: seq<Link>, call: Call) {
    && call.current.rows != [] && call.current.time.At?
    && |chain| > 0 && !chain[|chain| - 1].current.time.At?
    && var start := NewestBefore(call.current.time, LastOf(chain), call.supplied);
       exists i :: 0 <= i < |chain| && chain[i].current.time.At?
         && if start.Some? then Earlier(start.value.time, chain[i].current.time) else !Earlier(chain[i].current.time, call.current.time)
  }

  ghost predicate NeverGoesBack(calls: seq<Call>, key: string) {
    forall i :: 0 <= i < |calls| && SessionKey(calls[i].current) == key ==>
      !GoesBack(Chain(calls[..i], key), calls[i]) && !SlipsBack(Chain(calls[..i], key), calls[i])
  }

  /** Accepted times that parse strictly increase, and no interval begins before an accepted snapshot it follows. */
  ghost predicate InOrder(chain: seq<Link>) {
    forall i, j :: 0 <= i < j < |chain| ==> LinkAfter(chain[j], chain[i].current.time)
  }

  predicate LinkAfter(link: Link, time: TimeText) {
    && (time.At? && link.current.time.At? ==> Earlier(time, link.current.time))
    && (time.At? && link.previous.Some? ==> !Earlier(link.previous.value.time, time))
  }

  lemma {:induction false} ChainFacts(calls: seq<Call>, key: string)
    ensures forall i :: 0 <= i < |Chain(calls, key)| ==> Chain(calls, key)[i].current.rows != []
    ensures Timed(calls, key) ==> forall i :: 0 <= i < |Chain(calls, key)| ==> Chain(calls, key)[i].current.time.At?
  {
    if |calls| > 0 {
      ChainFacts(calls[..|calls| - 1], key);
    }
  }

  /** The link of an accepted call comes after every accepted one exactly when the call does not go or slip back. */
  lemma ExtendedInOrderIff(chain: seq<Link>, call: Call, link: Link)
    requires InOrder(chain) && |chain| > 0 && chain[|chain| - 1].current.rows != []
    requires Extended(chain, call) == chain + [link]
    ensures (forall i :: 0 <= i < |chain| ==> LinkAfter(link, chain[i].current.time)) <==> !GoesBack(chain, call) && !SlipsBack(chain, call)
  {
    var n := |chain| - 1;
    var last := chain[n].current.time;
    assert link == Extended(chain, call)[|chain|] == Link(NewestBefore(call.current.time, LastOf(chain), call.supplied), call.current);
    if last.At? {
      assert LinkAfter(link, last) <==> !GoesBack(chain, call);
      forall i | 0 <= i < n && LinkAfter(link, last) ensures LinkAfter(link, chain[i].current.time) {
        assert LinkAfter(chain[n], chain[i].current.time);
      }
    } else {
      assert forall i :: 0 <= i < |chain| && chain[i].current.time.At? ==>
        (LinkAfter(link, chain[i].current.time) <==>
          !call.current.time.At?
          || (if link.previous.Some? then !Earlier(link.previous.value.time, chain[i].current.time)
              else Earlier(chain[i].current.time, call.current.time)));
    }
  }

  /** A call that goes or slips back is accepted. */
  lemma RefusedNeverGoesBack(chain: seq<Link>, call: Call)
    requires Extended(chain, call) == chain
    ensures !GoesBack(chain, call) && !SlipsBack(chain, call)
  {}

  lemma InOrderAppend(chain: seq<Link>, link: Link)
    ensures InOrder(chain + [link]) <==> InOrder(chain) && forall i :: 0 <= i < |chain| ==> LinkAfter(link, chain[i].current.time)
  {
    var next := chain + [link];
    if InOrder(next) {
      forall i, j | 0 <= i < j < |chain| ensures LinkAfter(chain[j], chain[i].current.time) {
        assert LinkAfter(next[j], next[i].current.time);
      }
      forall i | 0 <= i < |chain| ensures LinkAfter(link, chain[i].current.time) {
        assert LinkAfter(next[|chain|], next[i].current.time);
      }
    }
  }

  lemma NeverGoesBackLast(calls: seq<Call>, key: string)
    requires |calls| > 0
    ensures var front, last := calls[..|calls| - 1], calls[|calls| - 1];
      NeverGoesBack(calls, key) <==>
        && NeverGoesBack(front, key)
        && (SessionKey(last.current) == key ==> !GoesBack(Chain(front, key), last) && !SlipsBack(Chain(front, key), last))
  {
    var front := calls[..|calls| - 1];
    assert forall i :: 0 <= i < |front| ==> front[..i] == calls[..i];
  }

  /**
    * For every run: a session's accepted times strictly advance and no compared interval begins
    * before an accepted snapshot it follows, exactly when no late arrival is compared with a
    * snapshot its caller supplies and nothing old slips in behind a time that does not parse.
    */
  lemma {:induction false} IntervalsInOrderIff(calls: seq<Call>, key: string)
    ensures InOrder(Chain(calls, key)) <==> NeverGoesBack(calls, key)
  {
    if |calls| > 0 {
      var front, last := calls[..|calls| - 1], calls[|calls| - 1];
      IntervalsInOrderIff(front, key);
      NeverGoesBackLast(calls, key);
      ChainFacts(front, key);
      if SessionKey(last.current) == key {
        CallInOrderIff(Chain(front, key), last);
      }
    }
  }

  lemma CallInOrderIff(chain: seq<Link>, call: Call)
    requires forall i :: 0 <= i < |chain| ==> chain[i].current.rows != []
    ensures InOrder(Extended(chain, call)) <==> InOrder(chain) && !GoesBack(chain, call) && !SlipsBack(chain, call)
  {
    var next := Extended(chain, call);
    if next == chain {
      RefusedNeverGoesBack(chain, call);
    } else {
      var link := next[|chain|];
      InOrderAppend(chain, link);
      if InOrder(chain) && |chain| > 0 { ExtendedInOrderIff(chain, call, link); }
    }
  }

  /** No call names a previous snapshot itself. */
  ghost predicate Unsupplied(calls: seq<Call>) { forall i :: 0 <= i < |calls| ==> calls[i].supplied.None? }

  /** Snapshots are supplied, if at all, only while the session has none of its own. */
  ghost predicate SuppliedAtStart(calls: seq<Call>, key: string) {
    forall i :: 0 <= i < |calls| && SessionKey(calls[i].current) == key && calls[i].supplied.Some? ==> Chain(calls[..i], key) == []
  }

  ghost predicate Linked(chain: seq<Link>) {
    forall i :: 0 < i < |chain| ==> chain[i].previous == Some(chain[i - 1].current)
  }

  /**
    * With parsable times and snapshots supplied only at the start, each interval begins where
    * the one before ended, whatever duplicates and late arrivals come in between.
    */
  lemma {:induction false} ComparedPairsFormAChain(calls: seq<Call>, key: string)
    requires SuppliedAtStart(calls, key) && Timed(calls, key)
    ensures Linked(Chain(calls, key)) && InOrder(Chain(calls, key))
  {
    if |calls| > 0 {
      var front, last := calls[..|calls| - 1], calls[|calls| - 1];
      assert forall i :: 0 <= i < |front| ==> front[..i] == calls[..i];
      ComparedPairsFormAChain(front, key);
      ChainFacts(front, key);
      var rest := Chain(front, key);
      if SessionKey(last.current) == key {
        assert |rest| > 0 ==> last.supplied.None?;
        CallInOrderIff(rest, last);
      }
    }
  }

  // --------------------------------------------------------------- exactly-once volume

  predicate SourceOf(id: string, row: SourceRow) { Valid(row) && row.contractId == id }

  /** The volume of a contract that a snapshot lists exactly once with a known volume. */
  ghost predicate ListsVolume(s: Snapshot, id: string, volume: real) {
    exists i :: 0 <= i < |s.rows| && SourceOf(id, s.rows[i]) && s.rows[i].volume == Some(volume)
      && forall j :: 0 <= j < |s.rows| && SourceOf(id, s.rows[j]) ==> i == j
  }

  function VolumeOf(id: string): ContractFlow -> real { (c: ContractFlow) => if c.contractId == id then c.volumeDelta else 0.0 }

  function CountedIn(p: Pair, id: string): real { Total(RealSum(), VolumeOf(id), ContractRows(p)) }

  function Counted(pairs: seq<Pair>, id: string): real {
    if |pairs| == 0 then 0.0 else Counted(pairs[..|pairs| - 1], id) + CountedIn(pairs[|pairs| - 1], id)
  }

  lemma {:induction false} PreviousRowIsTheOne(rows: seq<SourceRow>, id: string, i: nat)
    requires i < |rows| && SourceOf(id, rows[i]) && forall j :: 0 <= j < |rows| && SourceOf(id, rows[j]) ==> i == j
    ensures PreviousRow(rows, id) == Some(rows[i])
  {
    if i < |rows| - 1 { PreviousRowIsTheOne(rows[..|rows| - 1], id, i); }
  }

  lemma {:induction false} NoneCounted(rows: seq<SourceRow>, previous: seq<SourceRow>, spot: real, id: string)
    requires forall j :: 0 <= j < |rows| ==> !SourceOf(id, rows[j])
    ensures Total(RealSum(), VolumeOf(id), ContractFlows(rows, previous, spot)) == 0.0
  {
    if |rows| > 0 {
      assert forall j :: 0 <= j < |rows| - 1 ==> rows[1..][j] == rows[j + 1];
      NoneCounted(rows[1..], previous, spot, id);
    }
  }

  lemma {:induction false} OneCounted(rows: seq<SourceRow>, previous: seq<SourceRow>, spot: real, id: string, i: nat)
    requires i < |rows| && SourceOf(id, rows[i]) && forall j :: 0 <= j < |rows| && SourceOf(id, rows[j]) ==> i == j
    ensures Total(RealSum(), VolumeOf(id), ContractFlows(rows, previous, spot)) == VolumeDelta(rows[i], PreviousRow(previous, id))
  {
    var tail := rows[1..];
    assert forall j :: 0 <= j < |tail| ==> tail[j] == rows[j + 1];
    if i == 0 {
      NoneCounted(tail, previous, spot, id);
    } else {
      assert !SourceOf(id, rows[0]);
      OneCounted(tail, previous, spot, id, i - 1);
    }
  }

  lemma PairCountsIncrease(p: Pair, id: string, before: real, after: real)
    requires ListsVolume(p.previous, id, before) && ListsVolume(p.current, id, after)
    ensures CountedIn(p, id) == if after > before then after - before else 0.0
  {
    var i :| 0 <= i < |p.previous.rows| && SourceOf(id, p.previous.rows[i]) && p.previous.rows[i].volume == Some(before)
      && forall j :: 0 <= j < |p.previous.rows| && SourceOf(id, p.previous.rows[j]) ==> i == j;
    var k :| 0 <= k < |p.current.rows| && SourceOf(id, p.current.rows[k]) && p.current.rows[k].volume == Some(after)
      && forall j :: 0 <= j < |p.current.rows| && SourceOf(id, p.current.rows[j]) ==> k == j;
    PreviousRowIsTheOne(p.previous.rows, id, i);
    OneCounted(p.current.rows, p.previous.rows, OrElse(p.current.spot, Some(0.0)).value, id, k);
  }

  /** The volume from which a link counts: that of the snapshot it is compared with, if any and not greater, else its own. */
  function From(chain: seq<Link>, befores: seq<real>, volumes: seq<real>, i: nat): real
    requires i < |chain| == |befores| == |volumes|
  {
    if chain[i].previous.Some? && befores[i] <= volumes[i] then befores[i] else volumes[i]
  }

  ghost predicate KnownAt(chain: seq<Link>, id: string, befores: seq<real>, volumes: seq<real>, i: nat)
    requires i < |chain| == |befores| == |volumes|
  {
    && ListsVolume(chain[i].current, id, volumes[i])
    && (chain[i].previous.Some? ==> ListsVolume(chain[i].previous.value, id, befores[i]))
  }

  /** Volumes of a contract in the accepted snapshots and those they are compared with; they may rise and fall. */
  ghost predicate KnownVolumes(chain: seq<Link>, id: string, befores: seq<real>, volumes: seq<real>) {
    && |befores| == |volumes| == |chain| > 0
    && (forall i :: 0 <= i < |chain| ==> KnownAt(chain, id, befores, volumes, i))
  }

  /** The link starts above the volume last accepted: no interval covers the increase in between. */
  predicate Gap(chain: seq<Link>, befores: seq<real>, volumes: seq<real>, i: nat)
    requires 0 < i < |chain| == |befores| == |volumes|
  {
    volumes[i - 1] < From(chain, befores, volumes, i)
  }

  /** The link starts below the volume last accepted: what lies in between is counted again when the volume returns. */
  predicate Overlap(chain: seq<Link>, befores: seq<real>, volumes: seq<real>, i: nat)
    requires 0 < i < |chain| == |befores| == |volumes|
  {
    From(chain, befores, volumes, i) < volumes[i - 1]
  }

  function Excess(a: real, b: real): real { if a > b then a - b else 0.0 }

  /** The sizes of all gaps. */
  function Skipped(chain: seq<Link>, befores: seq<real>, volumes: seq<real>): real
    requires |chain| == |befores| == |volumes|
  {
    if |chain| <= 1 then 0.0
    else
      var n := |chain| - 1;
      Skipped(chain[..n], befores[..n], volumes[..n]) + Excess(From(chain, befores, volumes, n), volumes[n - 1])
  }

  /** The sizes of all overlaps. */
  function Repeated(chain: seq<Link>, befores: seq<real>, volumes: seq<real>): real
    requires |chain| == |befores| == |volumes|
  {
    if |chain| <= 1 then 0.0
    else
      var n := |chain| - 1;
      Repeated(chain[..n], befores[..n], volumes[..n]) + Excess(volumes[n - 1], From(chain, befores, volumes, n))
  }

  lemma KnownPrefix(chain: seq<Link>, id: string, befores: seq<real>, volumes: seq<real>)
    requires |chain| > 1 && KnownVolumes(chain, id, befores, volumes)
    ensures var n := |chain| - 1; KnownVolumes(chain[..n], id, befores[..n], volumes[..n])
    ensures KnownAt(chain, id, befores, volumes, |chain| - 1)
  {
    var n := |chain| - 1;
    forall i | 0 <= i < n ensures KnownAt(chain[..n], id, befores[..n], volumes[..n], i) {
      assert KnownAt(chain, id, befores, volumes, i);
    }
  }

  lemma CountedAppend(pairs: seq<Pair>, p: Pair, id: string)
    ensures Counted(pairs + [p], id) == Counted(pairs, id) + CountedIn(p, id)
  {
    assert (pairs + [p])[..|pairs|] == pairs;
  }

  lemma LinkVolume(link: Link, id: string, before: real, volume: real)
    requires link.previous.Some? && ListsVolume(link.previous.value, id, before) && ListsVolume(link.current, id, volume)
    ensures CountedIn(Pair(link.previous.value, link.current), id) == Excess(volume, before)
  {
    PairCountsIncrease(Pair(link.previous.value, link.current), id, before, volume);
  }

  lemma PairsOfLast(chain: seq<Link>, front: seq<Link>, link: Link)
    requires chain == front + [link]
    ensures PairsOf(chain) ==
      if link.previous.Some? then PairsOf(front) + [Pair(link.previous.value, link.current)] else PairsOf(front)
  {
    assert chain[..|chain| - 1] == front;
  }

  /** A link counts the increase from the volume it starts at to its own. */
  lemma LinkCounts(chain: seq<Link>, id: string, befores: seq<real>, volumes: seq<real>)
    requires |befores| == |volumes| == |chain| > 0 && KnownAt(chain, id, befores, volumes, |chain| - 1)
    ensures var n := |chain| - 1;
      Counted(PairsOf(chain), id) == Counted(PairsOf(chain[..n]), id) + volumes[n] - From(chain, befores, volumes, n)
  {
    var n := |chain| - 1;
    var front, link := chain[..n], chain[n];
    PairsOfLast(chain, front, link);
    if link.previous.Some? {
      LinkVolume(link, id, befores[n], volumes[n]);
      CountedAppend(PairsOf(front), Pair(link.previous.value, link.current), id);
    }
  }

  lemma {:induction false} ChainVolume(chain: seq<Link>, id: string, befores: seq<real>, volumes: seq<real>)
    requires KnownVolumes(chain, id, befores, volumes)
    ensures Counted(PairsOf(chain), id) ==
      volumes[|chain| - 1] - From(chain, befores, volumes, 0) - Skipped(chain, befores, volumes) + Repeated(chain, befores, volumes)
  {
    var n := |chain| - 1;
    assert KnownAt(chain, id, befores, volumes, n);
    LinkCounts(chain, id, befores, volumes);
    if n == 0 {
      NothingBefore(chain, id);
    } else {
      KnownPrefix(chain, id, befores, volumes);
      ChainVolume(chain[..n], id, befores[..n], volumes[..n]);
      MissedVolume(chain, befores, volumes);
    }
  }

  lemma NothingBefore(chain: seq<Link>, id: string)
    ensures Counted(PairsOf(chain[..0]), id) == 0.0
  {
    assert chain[..0] == [];
  }

  /** One more link: the miscount changes by where it starts against where the last one ended. */
  lemma MissedVolume(chain: seq<Link>, befores: seq<real>, volumes: seq<real>)
    requires |chain| == |befores| == |volumes| > 1
    ensures var n := |chain| - 1; var front, us, vs := chain[..n], befores[..n], volumes[..n];
      && From(front, us, vs, 0) == From(chain, befores, volumes, 0)
      && Repeated(chain, befores, volumes) - Skipped(chain, befores, volumes) ==
        Repeated(front, us, vs) - Skipped(front, us, vs) + volumes[n - 1] - From(chain, befores, volumes, n)
  {}

  lemma {:induction false} NoneSkippedIff(chain: seq<Link>, befores: seq<real>, volumes: seq<real>)
    requires |chain| == |befores| == |volumes|
    ensures Skipped(chain, befores, volumes) >= 0.0
    ensures Skipped(chain, befores, volumes) == 0.0 <==> forall i :: 0 < i < |chain| ==> !Gap(chain, befores, volumes, i)
  {
    if |chain| > 1 {
      var n := |chain| - 1;
      var front, us, vs := chain[..n], befores[..n], volumes[..n];
      NoneSkippedIff(front, us, vs);
      forall i | 0 < i < n ensures Gap(front, us, vs, i) == Gap(chain, befores, volumes, i) {}
      assert (forall i :: 0 < i < |chain| ==> !Gap(chain, befores, volumes, i)) <==>
        (forall i :: 0 < i < |front| ==> !Gap(front, us, vs, i)) && !Gap(chain, befores, volumes, n);
    }
  }

  lemma {:induction false} NoneRepeatedIff(chain: seq<Link>, befores: seq<real>, volumes: seq<real>)
    requires |chain| == |befores| == |volumes|
    ensures Repeated(chain, befores, volumes) >= 0.0
    ensures Repeated(chain, befores, volumes) == 0.0 <==> forall i :: 0 < i < |chain| ==> !Overlap(chain, befores, volumes, i)
  {
    if |chain| > 1 {
      var n := |chain| - 1;
      var front, us, vs := chain[..n], befores[..n], volumes[..n];
      NoneRepeatedIff(front, us, vs);
      forall i | 0 < i < n ensures Overlap(front, us, vs, i) == Overlap(chain, befores, volumes, i) {}
      assert (forall i :: 0 < i < |chain| ==> !Overlap(chain, befores, volumes, i)) <==>
        (forall i :: 0 < i < |front| ==> !Overlap(front, us, vs, i)) && !Overlap(chain, befores, volumes, n);
    }
  }

  /**
    * For every run, supplied snapshots and unparsable times included, and volumes that rise and
    * fall: what is counted is the increase from the first volume to the last, less what the
    * gaps skip and more by what the overlaps repeat.
    */
  lemma CountedVolume(calls: seq<Call>, key: string, id: string, befores: seq<real>, volumes: seq<real>)
    requires KnownVolumes(Chain(calls, key), id, befores, volumes)
    ensures var chain := Chain(calls, key);
      Counted(Pairs(NOTHING, calls, key), id) ==
        volumes[|chain| - 1] - From(chain, befores, volumes, 0) - Skipped(chain, befores, volumes) + Repeated(chain, befores, volumes)
  {
    PairsAreLinks(calls, key);
    ChainVolume(Chain(calls, key), id, befores, volumes);
  }

  /**
    * So without overlaps the count is never too great, and right exactly without gaps; without
    * gaps it is never too small, and right exactly without overlaps.
    */
  lemma VolumeCountedOnceIff(calls: seq<Call>, key: string, id: string, befores: seq<real>, volumes: seq<real>)
    requires KnownVolumes(Chain(calls, key), id, befores, volumes)
    ensures var chain := Chain(calls, key);
      var counted, whole := Counted(Pairs(NOTHING, calls, key), id), volumes[|chain| - 1] - From(chain, befores, volumes, 0);
      var gapless := forall i :: 0 < i < |chain| ==> !Gap(chain, befores, volumes, i);
      var disjoint := forall i :: 0 < i < |chain| ==> !Overlap(chain, befores, volumes, i);
      && (disjoint ==> counted <= whole && (counted == whole <==> gapless))
      && (gapless ==> counted >= whole && (counted == whole <==> disjoint))
  {
    var chain := Chain(calls, key);
    CountedVolume(calls, key, id, befores, volumes);
    NoneSkippedIff(chain, befores, volumes);
    NoneRepeatedIff(chain, befores, volumes);
  }

  lemma OneVolume(s: Snapshot, id: string, a: real, b: real)
    requires ListsVolume(s, id, a) && ListsVolume(s, id, b)
    ensures a == b
  {}

  /**
    * With parsable times and snapshots supplied only at the start every unit of volume is
    * counted exactly once, if and only if the volume never falls from one accepted snapshot to
    * the next.
    */
  lemma VolumeCountedExactlyOnce(calls: seq<Call>, key: string, id: string, befores: seq<real>, volumes: seq<real>)
    requires SuppliedAtStart(calls, key) && Timed(calls, key)
    requires KnownVolumes(Chain(calls, key), id, befores, volumes)
    ensures var chain := Chain(calls, key);
      Counted(Pairs(NOTHING, calls, key), id) == volumes[|chain| - 1] - From(chain, befores, volumes, 0) <==>
      forall i :: 0 < i < |chain| ==> volumes[i - 1] <= volumes[i]
  {
    var chain := Chain(calls, key);
    ComparedPairsFormAChain(calls, key);
    forall i | 0 < i < |chain|
      ensures !Gap(chain, befores, volumes, i) && (Overlap(chain, befores, volumes, i) <==> volumes[i] < volumes[i - 1])
    {
      assert KnownAt(chain, id, befores, volumes, i) && KnownAt(chain, id, befores, volumes, i - 1);
      OneVolume(chain[i - 1].current, id, volumes[i - 1], befores[i]);
    }
    VolumeCountedOnceIff(calls, key, id, befores, volumes);
  }

  /** A link made without supplied snapshots: compared with its predecessor, or next to a time that does not parse. */
  predicate PlainLink(chain: seq<Link>, i: nat)
    requires 0 < i < |chain|
  {
    if chain[i - 1].current.time.At? && chain[i].current.time.At?
    then chain[i].previous == Some(chain[i - 1].current) else chain[i].previous == None
  }

  lemma {:induction false} UnsuppliedLinksArePlain(calls: seq<Call>, key: string)
    requires Unsupplied(calls)
    ensures forall i :: 0 < i < |Chain(calls, key)| ==> PlainLink(Chain(calls, key), i)
  {
    if |calls| > 0 {
      var front := calls[..|calls| - 1];
      UnsuppliedLinksArePlain(front, key);
      ChainFacts(front, key);
      var rest, chain := Chain(front, key), Chain(calls, key);
      if chain != rest {
        forall i | 0 < i < |rest| ensures PlainLink(chain, i) == PlainLink(rest, i) {}
        if |rest| > 0 { assert PlainLink(chain, |rest|); }
      }
    }
  }

  /**
    * Without supplied snapshots the gaps are the increases next to an accepted time that does
    * not parse, and the overlaps are the falls of the volume.
    */
  lemma GapIff(calls: seq<Call>, key: string, id: string, befores: seq<real>, volumes: seq<real>, i: nat)
    requires Unsupplied(calls) && KnownVolumes(Chain(calls, key), id, befores, volumes) && 0 < i < |Chain(calls, key)|
    ensures var chain := Chain(calls, key);
      Gap(chain, befores, volumes, i) <==>
      volumes[i - 1] < volumes[i] && !(chain[i - 1].current.time.At? && chain[i].current.time.At?)
    ensures Overlap(Chain(calls, key), befores, volumes, i) <==> volumes[i] < volumes[i - 1]
  {
    var chain := Chain(calls, key);
    UnsuppliedLinksArePlain(calls, key);
    assert PlainLink(chain, i) && KnownAt(chain, id, befores, volumes, i) && KnownAt(chain, id, befores, volumes, i - 1);
    if chain[i].previous.Some? { OneVolume(chain[i - 1].current, id, volumes[i - 1], befores[i]); }
  }

  // ---------------------------------------------------- runs that never go back count nothing twice

  lemma {:induction false} LinksRise(calls: seq<Call>, key: string)
    ensures forall i :: 0 <= i < |Chain(calls, key)| && Chain(calls, key)[i].previous.Some? ==>
      Earlier(Chain(calls, key)[i].previous.value.time, Chain(calls, key)[i].current.time)
  {
    if |calls| > 0 { LinksRise(calls[..|calls| - 1], key); }
  }

  /** Disjoint intervals, one after the other. */
  ghost predicate Successive(pairs: seq<Pair>) {
    && (forall j :: 0 <= j < |pairs| ==> Earlier(pairs[j].previous.time, pairs[j].current.time))
    && (forall j :: 0 < j < |pairs| ==> !Earlier(pairs[j].previous.time, pairs[j - 1].current.time))
  }

  lemma {:induction false} PairsAreSuccessive(chain: seq<Link>)
    requires InOrder(chain)
    requires forall i :: 0 <= i < |chain| && chain[i].previous.Some? ==> Earlier(chain[i].previous.value.time, chain[i].current.time)
    ensures Successive(PairsOf(chain))
    ensures forall p :: p in PairsOf(chain) ==> exists i :: 0 <= i < |chain| && chain[i] == Link(Some(p.previous), p.current)
  {
    if |chain| > 0 {
      var front, link := chain[..|chain| - 1], chain[|chain| - 1];
      assert chain == front + [link];
      InOrderAppend(front, link);
      PairsAreSuccessive(front);
      var pairs := PairsOf(front);
      if |pairs| > 0 {
        assert pairs[|pairs| - 1] in pairs;
        var i :| 0 <= i < |front| && front[i] == Link(Some(pairs[|pairs| - 1].previous), pairs[|pairs| - 1].current);
        assert LinkAfter(link, front[i].current.time);
      }
      if link.previous.Some? { assert chain[|chain| - 1] == Link(Some(link.previous.value), link.current); }
      forall p | p in pairs ensures exists i :: 0 <= i < |chain| && chain[i] == Link(Some(p.previous), p.current) {
        var i :| 0 <= i < |front| && front[i] == Link(Some(p.previous), p.current);
        assert chain[i] == front[i];
      }
    }
  }

  /** The compared snapshots list a cumulative volume of their time. */
  ghost predicate FollowTime(pairs: seq<Pair>, id: string, volume: int -> real) {
    && (forall a: int, b: int :: a <= b ==> volume(a) <= volume(b))
    && (forall j :: 0 <= j < |pairs| ==>
          && pairs[j].previous.time.At? && ListsVolume(pairs[j].previous, id, volume(pairs[j].previous.time.time))
          && pairs[j].current.time.At? && ListsVolume(pairs[j].current, id, volume(pairs[j].current.time.time)))
  }

  lemma {:induction false} SuccessiveCountAtMost(pairs: seq<Pair>, id: string, volume: int -> real)
    requires |pairs| > 0 && Successive(pairs) && FollowTime(pairs, id, volume)
    ensures Counted(pairs, id) <= volume(pairs[|pairs| - 1].current.time.time) - volume(pairs[0].previous.time.time)
  {
    var n := |pairs| - 1;
    var before, after := volume(pairs[n].previous.time.time), volume(pairs[n].current.time.time);
    PairCountsIncrease(pairs[n], id, before, after);
    if n > 0 {
      SuccessiveCountAtMost(pairs[..n], id, volume);
      assert pairs[n - 1].current.time.time <= pairs[n].previous.time.time;
    } else {
      assert pairs[..0] == [];
    }
  }

  /**
    * In every run that never goes back, whatever is supplied or does not parse, the counted
    * volume of a contract whose volume never falls in time is at most its increase from the
    * start of the first interval to the end of the last.
    */
  lemma NeverBackNeverTwice(calls: seq<Call>, key: string, id: string, volume: int -> real)
    requires NeverGoesBack(calls, key)
    requires var pairs := Pairs(NOTHING, calls, key); |pairs| > 0 && FollowTime(pairs, id, volume)
    ensures var pairs := Pairs(NOTHING, calls, key);
      Counted(pairs, id) <= volume(pairs[|pairs| - 1].current.time.time) - volume(pairs[0].previous.time.time)
  {
    PairsAreLinks(calls, key);
    IntervalsInOrderIff(calls, key);
    LinksRise(calls, key);
    PairsAreSuccessive(Chain(calls, key));
    SuccessiveCountAtMost(Pairs(NOTHING, calls, key), id, volume);
  }

  // --------------------------------------------------------------- three runs that miscount

  /** A snapshot of one contract at a time with a volume. */
  function OneContract(time: TimeText, volume: real): Snapshot {
    Snapshot(Some("s"), time, None, [OneRow(volume)])
  }

  function OneRow(volume: real): SourceRow {
    SourceRow("c", Some(OptionRights.Call), Some(1.0), Some(volume), None, None, None, None, None, None, None, None)
  }

  lemma OneContractLists(time: TimeText, volume: real)
    ensures ListsVolume(OneContract(time, volume), "c", volume)
  {
    assert SourceOf("c", OneContract(time, volume).rows[0]);
  }

  lemma {:induction false} ChainAppend(calls: seq<Call>, last: Call, key: string)
    ensures Chain(calls + [last], key) == if SessionKey(last.current) == key then Extended(Chain(calls, key), last) else Chain(calls, key)
  {
    assert (calls + [last])[..|calls|] == calls;
  }

  /** Volume that arrives next to a snapshot whose time does not parse is not counted. */
  lemma UnparsableTimeCanLoseVolume() returns (calls: seq<Call>)
    ensures Unsupplied(calls) && |calls| == 3
    ensures calls[0].current == OneContract(At(1), 0.0) && calls[1].current == OneContract(Unparsable, 1.0) && calls[2].current == OneContract(At(3), 2.0)
    ensures Counted(Pairs(NOTHING, calls, "s"), "c") == 0.0
  {
    var a, b, c := Call(OneContract(At(1), 0.0), None), Call(OneContract(Unparsable, 1.0), None), Call(OneContract(At(3), 2.0), None);
    calls := [] + [a] + [b] + [c];
    ChainAppend([], a, "s");
    ChainAppend([] + [a], b, "s");
    ChainAppend([] + [a] + [b], c, "s");
    var one, two, three := Link(None, a.current), Link(None, b.current), Link(None, c.current);
    assert Chain([] + [a], "s") == [one];
    assert Chain([] + [a] + [b], "s") == [one, two];
    assert Chain(calls, "s") == [one, two, three];
    NoPairs([one, two, three]);
    PairsAreLinks(calls, "s");
  }

  lemma {:induction false} NoPairs(chain: seq<Link>)
    requires forall i :: 0 <= i < |chain| ==> chain[i].previous.None?
    ensures PairsOf(chain) == []
  {
    if |chain| > 0 { NoPairs(chain[..|chain| - 1]); }
  }

  /** A late arrival compared with a snapshot its caller supplies makes the same volume count again. */
  lemma LateSuppliedCanCountTwice() returns (calls: seq<Call>)
    ensures |calls| == 4 && !NeverGoesBack(calls, "s")
    ensures calls[0].current == OneContract(At(1), 1.0) && calls[1].current == calls[3].current == OneContract(At(5), 5.0)
    ensures Counted(Pairs(NOTHING, calls, "s"), "c") == 8.0
  {
    var first, late, last := OneContract(At(1), 1.0), OneContract(At(3), 3.0), OneContract(At(5), 5.0);
    var a, b, c := Call(first, None), Call(last, None), Call(late, Some(first));
    calls := [] + [a] + [b] + [c] + [b];
    ChainAppend([], a, "s");
    ChainAppend([] + [a], b, "s");
    ChainAppend([] + [a] + [b], c, "s");
    ChainAppend([] + [a] + [b] + [c], b, "s");
    var one, two, three, four := Link(None, first), Link(Some(first), last), Link(Some(first), late), Link(Some(late), last);
    assert Chain([] + [a], "s") == [one];
    assert Chain([] + [a] + [b], "s") == [one, two];
    assert Chain([] + [a] + [b] + [c], "s") == [one, two, three];
    assert Chain(calls, "s") == [one, two, three, four];
    assert calls[..2] == [] + [a] + [b] && calls[2] == c && GoesBack([one, two], c);
    PairsAreLinks(calls, "s");
    FourLinks(one, two, three, four);
    ThreeIncreases(Pair(first, last), Pair(first, late), Pair(late, last));
  }

  /**
    * A time that does not parse lets an older snapshot in, and what follows it is counted again:
    * at times 1, 5, unparsable, 3 and 5 the volume rises by 4 in all and 6 are counted.
    */
  lemma UnparsableTimeCanCountTwice(first: Snapshot, last: Snapshot, lost: Snapshot, late: Snapshot) returns (calls: seq<Call>)
    requires first == OneContract(At(1), 1.0) && last == OneContract(At(5), 5.0)
    requires lost == OneContract(Unparsable, 5.0) && late == OneContract(At(3), 3.0)
    ensures calls == [Call(first, None), Call(last, None), Call(lost, None), Call(late, None), Call(last, None)]
    ensures Unsupplied(calls) && !NeverGoesBack(calls, "s") && Counted(Pairs(NOTHING, calls, "s"), "c") == 6.0
  {
    var three := BlindAtThree(first, last, lost);
    calls := LateThenLast(three, first, last, lost, late);
    SlipsBehind(calls, Chain(three, "s"), Call(late, None));
    CountedAgain(calls, first, last, lost, late);
  }

  lemma CountedAgain(calls: seq<Call>, first: Snapshot, last: Snapshot, lost: Snapshot, late: Snapshot)
    requires first == OneContract(At(1), 1.0) && last == OneContract(At(5), 5.0) && late == OneContract(At(3), 3.0)
    requires Chain(calls, "s") ==
      [Link(None, first), Link(Some(first), last), Link(None, lost)] + [Link(None, late)] + [Link(Some(late), last)]
    ensures Counted(Pairs(NOTHING, calls, "s"), "c") == 6.0
  {
    PairsAreLinks(calls, "s");
    FiveLinks(Link(None, first), Link(Some(first), last), Link(None, lost), Link(None, late), Link(Some(late), last));
    TwoIncreases(Pair(first, last), Pair(late, last));
  }

  lemma LateThenLast(three: seq<Call>, first: Snapshot, last: Snapshot, lost: Snapshot, late: Snapshot) returns (calls: seq<Call>)
    requires last == OneContract(At(5), 5.0) && lost == OneContract(Unparsable, 5.0) && late == OneContract(At(3), 3.0)
    requires three == [Call(first, None), Call(last, None), Call(lost, None)]
    requires Chain(three, "s") == [Link(None, first), Link(Some(first), last), Link(None, lost)]
    ensures calls == [Call(first, None), Call(last, None), Call(lost, None), Call(late, None), Call(last, None)]
    ensures Chain(calls[..3], "s") == Chain(three, "s") && Unsupplied(calls)
    ensures Chain(calls, "s") == Chain(three, "s") + [Link(None, late)] + [Link(Some(late), last)]
  {
    var d, e := Call(late, None), Call(last, None);
    calls := three + [d] + [e];
    ChainAppend(three, d, "s");
    assert Chain(three + [d], "s") == Chain(three, "s") + [Link(None, late)];
    ChainAppend(three + [d], e, "s");
    assert calls[..3] == three;
  }

  lemma BlindAtThree(first: Snapshot, last: Snapshot, lost: Snapshot) returns (calls: seq<Call>)
    requires first == OneContract(At(1), 1.0) && last == OneContract(At(5), 5.0) && lost == OneContract(Unparsable, 5.0)
    ensures calls == [Call(first, None), Call(last, None), Call(lost, None)]
    ensures Chain(calls, "s") == [Link(None, first), Link(Some(first), last), Link(None, lost)]
  {
    var a, b, c := Call(first, None), Call(last, None), Call(lost, None);
    calls := [] + [a] + [b] + [c];
    ChainAppend([], a, "s");
    ChainAppend([] + [a], b, "s");
    ChainAppend([] + [a] + [b], c, "s");
    assert Chain([] + [a], "s") == [Link(None, first)];
    assert Chain([] + [a] + [b], "s") == [Link(None, first), Link(Some(first), last)];
  }

  lemma SlipsBehind(calls: seq<Call>, chain: seq<Link>, d: Call)
    requires |calls| == 5 && calls[3] == d && Chain(calls[..3], "s") == chain && |chain| == 3
    requires d == Call(OneContract(At(3), 3.0), None) && chain[1].current.time == At(5) && chain[2].current.time == Unparsable
    ensures !NeverGoesBack(calls, "s")
  {
    assert !Earlier(chain[1].current.time, d.current.time);
    assert SlipsBack(chain, d);
  }

  lemma FiveLinks(one: Link, two: Link, three: Link, four: Link, five: Link)
    requires one.previous.None? && two.previous.Some? && three.previous.None? && four.previous.None? && five.previous.Some?
    ensures PairsOf([one, two, three] + [four] + [five]) ==
      [Pair(two.previous.value, two.current), Pair(five.previous.value, five.current)]
  {
    PairsOfLast([one], [], one);
    PairsOfLast([one, two], [one], two);
    PairsOfLast([one, two, three], [one, two], three);
    PairsOfLast([one, two, three] + [four], [one, two, three], four);
    PairsOfLast([one, two, three] + [four] + [five], [one, two, three] + [four], five);
  }

  lemma TwoIncreases(p: Pair, q: Pair)
    requires p == Pair(OneContract(At(1), 1.0), OneContract(At(5), 5.0)) && q == Pair(OneContract(At(3), 3.0), OneContract(At(5), 5.0))
    ensures Counted([p, q], "c") == 6.0
  {
    OneContractLists(At(1), 1.0);
    OneContractLists(At(3), 3.0);
    OneContractLists(At(5), 5.0);
    PairCountsIncrease(p, "c", 1.0, 5.0);
    PairCountsIncrease(q, "c", 3.0, 5.0);
    CountedAppend([], p, "c");
    CountedAppend([p], q, "c");
    assert [] + [p] == [p] && [p] + [q] == [p, q];
  }

  lemma FourLinks(one: Link, two: Link, three: Link, four: Link)
    requires one.previous.None? && two.previous.Some? && three.previous.Some? && four.previous.Some?
    ensures PairsOf([one, two, three, four]) ==
      [Pair(two.previous.value, two.current), Pair(three.previous.value, three.current), Pair(four.previous.value, four.current)]
  {
    assert [one, two, three, four][..3] == [one, two, three];
    assert [one, two, three][..2] == [one, two];
    assert [one, two][..1] == [one];
    assert [one][..0] == [];
    assert PairsOf([one]) == [];
    assert PairsOf([one, two]) == [Pair(two.previous.value, two.current)];
    assert PairsOf([one, two, three]) == [Pair(two.previous.value, two.current), Pair(three.previous.value, three.current)];
  }

  lemma ThreeIncreases(p: Pair, q: Pair, r: Pair)
    requires p == Pair(OneContract(At(1), 1.0), OneContract(At(5), 5.0))
    requires q == Pair(OneContract(At(1), 1.0), OneContract(At(3), 3.0)) && r == Pair(OneContract(At(3), 3.0), OneContract(At(5), 5.0))
    ensures Counted([p, q, r], "c") == 8.0
  {
    OneContractLists(At(1), 1.0);
    OneContractLists(At(3), 3.0);
    OneContractLists(At(5), 5.0);
    PairCountsIncrease(p, "c", 1.0, 5.0);
    PairCountsIncrease(q, "c", 1.0, 3.0);
    PairCountsIncrease(r, "c", 3.0, 5.0);
    assert [p, q, r][..2] == [p, q] && [p, q][..1] == [p] && [p][..0] == [];
    assert Counted([p], "c") == CountedIn(p, "c");
    assert Counted([p, q], "c") == CountedIn(p, "c") + CountedIn(q, "c");
  }
}
