/** The job restart ledger: pkg/recovery/job_restart_ledger.go. */
module RestartLedger {
  import opened Base

  /** A stored value: a time stamp, or text that does not parse as one. */
  datatype Entry = At(stamp: int) | Garbage

  datatype ConfigMap = ConfigMap(version: nat, data: map<string, Entry>)

  /** retry.DefaultRetry makes this many attempts. */
  const MAX_ATTEMPTS := 5

  /** The entry of a job; digest stands for hexadecimal SHA-256. */
  function LedgerKey(digest: string -> string, namespace: string, job: string): string {
    digest(namespace + ['\0'] + job)
  }

  /** Jobs get different entries unless the digest collides: a namespace cannot contain NUL. */
  lemma LedgerKeySeparatesJobs(digest: string -> string, ns: string, job: string, ns': string, job': string)
    requires '\0' !in ns && '\0' !in ns'
    requires forall x, y :: digest(x) == digest(y) ==> x == y
    ensures LedgerKey(digest, ns, job) == LedgerKey(digest, ns', job') <==> ns == ns' && job == job'
  {
    SplitOnce(ns, job, ns', job', '\0');
  }

  // ---- One look at the ledger ----

  predicate Dead(e: Entry, now: int, ttl: int) {
    e.Garbage? || e.stamp + ttl <= now
  }

  predicate LiveAt(data: map<string, Entry>, key: string, now: int, ttl: int) {
    key in data && !Dead(data[key], now, ttl)
  }

  function Prune(data: map<string, Entry>, now: int, ttl: int): (kept: map<string, Entry>)
    ensures forall k :: k in kept <==> k in data && data[k].At? && now < data[k].stamp + ttl
    ensures forall k :: k in kept ==> kept[k] == data[k]
  {
    map k | k in data && !Dead(data[k], now, ttl) :: data[k]
  }

  method PruneEntries(data: map<string, Entry>, now: int, ttl: int) returns (kept: map<string, Entry>)
    ensures kept == Prune(data, now, ttl)
  {
    kept := data;
    var todo := data.Keys;
    while todo != {}
      invariant todo <= data.Keys
      invariant kept == map k | k in data && (k in todo || !Dead(data[k], now, ttl)) :: data[k]
      decreases |todo|
    {
      var k :| k in todo;
      todo := todo - {k};
      if Dead(data[k], now, ttl) {
        kept := kept - {k};
      }
    }
  }

  datatype Decision = Deny(last: int) | Record(data: map<string, Entry>)

  /** What survives pruning always parses, so the denying branch has a time to report. */
  function Decide(data: map<string, Entry>, key: string, now: int, ttl: int): Decision {
    var kept := Prune(data, now, ttl);
    if key in kept then Deny(kept[key].stamp) else Record(kept[key := At(now)])
  }

  /** What the API server answers to the conditional write that follows a look. */
  datatype Answer = Applied(stored: ConfigMap) | Conflict | NoWrite(last: int) | Missing

  function TryWrite(store: Option<ConfigMap>, seen: Option<ConfigMap>, key: string, now: int, ttl: int): (a: Answer)
    // a write keeps the entries live at its stamp, and nothing else but its own
    ensures a.Applied? && seen.Some? ==>
      forall k :: k in a.stored.data <==> k == key || LiveAt(seen.value.data, k, now, ttl)
  {
    match seen
    case None =>
      if store.None? then Applied(ConfigMap(0, map[key := At(now)])) else Conflict
    case Some(cm) =>
      match Decide(cm.data, key, now, ttl)
      case Deny(last) => NoWrite(last)
      case Record(data) =>
        if store.None? then Missing
        else if store.value.version == cm.version then Applied(ConfigMap(cm.version + 1, data))
        else Conflict
  }

  /** The job was restarted at the given time, not yet ttl ago. */
  predicate RestartedAt(data: map<string, Entry>, key: string, last: int, now: int, ttl: int) {
    key in data && data[key] == At(last) && now < last + ttl
  }

  /**
   * The answers to a look and the write after it. A live entry denies. Otherwise the stamp is written, unless
   * somebody else wrote, created or removed the ledger meanwhile.
   */
  lemma TryWriteCases(store: Option<ConfigMap>, seen: Option<ConfigMap>, key: string, now: int, ttl: int)
    ensures var a := TryWrite(store, seen, key, now, ttl);
      && (forall last :: a == NoWrite(last) <==> seen.Some? && RestartedAt(seen.value.data, key, last, now, ttl))
      && (a == Missing <==> seen.Some? && store.None? && !a.NoWrite?)
      && (a == Conflict <==> !a.NoWrite? && store.Some? && (seen.Some? ==> store.value.version != seen.value.version))
      && (a.Applied? ==>
            && a.stored.version == (if seen.None? then 0 else seen.value.version + 1)
            && key in a.stored.data && a.stored.data[key] == At(now)
            && forall k, t :: k != key ==>
                 (k in a.stored.data && a.stored.data[k] == t
                  <==> seen.Some? && k in seen.value.data && seen.value.data[k] == t && t.At? && now < t.stamp + ttl))
  {
  }

  /** A request may be lost before it reaches the server, or its answer may be lost on the way back. */
  datatype Fault = NoFault | RequestLost | AnswerLost

  // ---- One call, alone with an arbitrary environment ----

  /** How others leave the store when this call reads and when it writes, and what goes wrong. */
  datatype Turn = Turn(atRead: Option<ConfigMap>, readFails: bool, atWrite: Option<ConfigMap>, fault: Fault)

  datatype CallResult = Granted | Denied(last: int) | Failed

  /** The end of a call and what it wrote; no end means that the attempt is repeated. */
  function Settle(turn: Turn, key: string, now: int, ttl: int): Option<(CallResult, seq<ConfigMap>)> {
    if turn.readFails then Some((Failed, [])) else
      match TryWrite(turn.atWrite, turn.atRead, key, now, ttl)
      case NoWrite(last) => Some((Denied(last), []))
      case Missing => Some((Failed, []))
      case Conflict => if turn.fault.NoFault? then None else Some((Failed, []))
      case Applied(stored) =>
        if turn.fault.RequestLost? then Some((Failed, []))
        else Some((if turn.fault.NoFault? then Granted else Failed, [stored]))
  }

  function CallFrom(turns: nat -> Turn, attempt: nat, key: string, now: int, ttl: int): (CallResult, seq<ConfigMap>)
    decreases MAX_ATTEMPTS - attempt
  {
    if attempt >= MAX_ATTEMPTS then (Failed, []) else
      match Settle(turns(attempt), key, now, ttl)
      case Some(end) => end
      case None => CallFrom(turns, attempt + 1, key, now, ttl)
  }

  /** All turns before i met a conflict, and turn i ended the call as given. */
  ghost predicate SettlesAt(
    turns: nat -> Turn, attempt: nat, i: nat, key: string, now: int, ttl: int, end: (CallResult, seq<ConfigMap>))
  {
    && attempt <= i < MAX_ATTEMPTS
    && (forall j :: attempt <= j < i ==> !turns(j).readFails && Conflicts(turns(j), key, now, ttl))
    && Settle(turns(i), key, now, ttl) == Some(end)
  }

  predicate Conflicts(turn: Turn, key: string, now: int, ttl: int) {
    turn.fault.NoFault? && TryWrite(turn.atWrite, turn.atRead, key, now, ttl) == Conflict
  }

  /** Either the call runs out of attempts, or the first turn without a conflict settles it. */
  lemma {:induction false} SettledOrExhausted(turns: nat -> Turn, attempt: nat, key: string, now: int, ttl: int)
    ensures var end := CallFrom(turns, attempt, key, now, ttl);
      end == (Failed, []) || exists i :: SettlesAt(turns, attempt, i, key, now, ttl, end)
    decreases MAX_ATTEMPTS - attempt
  {
    var end := CallFrom(turns, attempt, key, now, ttl);
    if attempt >= MAX_ATTEMPTS {
    } else if Settle(turns(attempt), key, now, ttl).Some? {
      assert SettlesAt(turns, attempt, attempt, key, now, ttl, end);
    } else {
      SettledOrExhausted(turns, attempt + 1, key, now, ttl);
      if end != (Failed, []) {
        var i :| SettlesAt(turns, attempt + 1, i, key, now, ttl, end);
        assert SettlesAt(turns, attempt, i, key, now, ttl, end);
      }
    }
  }

  /** data holds this call's stamp, and besides it only entries that were live then. */
  ghost predicate RecordsOver(data: map<string, Entry>, key: string, now: int, ttl: int) {
    key in data && data[key] == At(now) && forall k :: k in data && k != key ==> !Dead(data[k], now, ttl)
  }

  /**
   * A call writes at most once, recording its own stamp over entries that were all still live. It is granted
   * if and only if the turn that settled it had its write applied and saw the answer; so a lost answer is
   * never a grant. A denial wrote nothing and names a live restart.
   */
  lemma CallIsSound(turns: nat -> Turn, key: string, now: int, ttl: int)
    ensures var (result, writes) := CallFrom(turns, 0, key, now, ttl);
      && |writes| <= 1
      && (writes != [] ==> RecordsOver(writes[0].data, key, now, ttl))
      && (result.Denied? ==> writes == [] && now < result.last + ttl)
      && (result.Granted? <==> exists i ::
            && SettlesAt(turns, 0, i, key, now, ttl, (result, writes)) && turns(i).fault.NoFault? && !turns(i).readFails
            && |writes| == 1 && TryWrite(turns(i).atWrite, turns(i).atRead, key, now, ttl) == Applied(writes[0]))
  {
    var (result, writes) := CallFrom(turns, 0, key, now, ttl);
    SettledOrExhausted(turns, 0, key, now, ttl);
    if i :| SettlesAt(turns, 0, i, key, now, ttl, (result, writes)) {
      SettledTurn(turns(i), key, now, ttl);
    }
  }

  lemma SettledTurn(turn: Turn, key: string, now: int, ttl: int)
    requires Settle(turn, key, now, ttl).Some?
    ensures var (result, writes) := Settle(turn, key, now, ttl).value;
      && |writes| <= 1
      && (writes != [] ==> RecordsOver(writes[0].data, key, now, ttl))
      && (result.Denied? ==> writes == [] && now < result.last + ttl)
      && (result.Granted? <==>
            !turn.readFails && turn.fault.NoFault? && TryWrite(turn.atWrite, turn.atRead, key, now, ttl).Applied?)
      && (result.Granted? ==> |writes| == 1 && TryWrite(turn.atWrite, turn.atRead, key, now, ttl) == Applied(writes[0]))
  {
  }

  /** The first i turns read the ledger, and nothing went wrong but that somebody else wrote meanwhile. */
  ghost predicate ConflictsUntil(turns: nat -> Turn, i: nat, key: string, now: int, ttl: int) {
    forall j :: 0 <= j < i ==> !turns(j).readFails && Conflicts(turns(j), key, now, ttl)
  }

  lemma {:induction false} ConflictsAreSkipped(
    turns: nat -> Turn, attempt: nat, i: nat, key: string, now: int, ttl: int)
    requires attempt <= i <= 5 && ConflictsUntil(turns, i, key, now, ttl)
    ensures CallFrom(turns, attempt, key, now, ttl) == CallFrom(turns, i, key, now, ttl)
    decreases i - attempt
  {
    if attempt == i {
    } else {
      ConflictsAreSkipped(turns, attempt + 1, i, key, now, ttl);
    }
  }

  /** The answer that a turn without further retry gives. */
  ghost predicate AnswersTurn(turn: Turn, key: string, now: int, ttl: int, end: (CallResult, seq<ConfigMap>)) {
    if turn.readFails then end == (Failed, [])
    else match TryWrite(turn.atWrite, turn.atRead, key, now, ttl)
      case NoWrite(last) => end == (Denied(last), [])
      case Missing => end == (Failed, [])
      case Conflict => turn.fault.NoFault? || end == (Failed, [])
      case Applied(stored) =>
        (match turn.fault
         case NoFault => end == (Granted, [stored])
         case RequestLost => end == (Failed, [])
         case AnswerLost => end == (Failed, [stored]))
  }

  /**
   * A conflict is retried, up to five attempts. The first turn that meets none decides: it grants if its write
   * is applied and acknowledged, denies if the job was restarted, and fails on any fault.
   */
  lemma ConflictsAreRetried(turns: nat -> Turn, i: nat, key: string, now: int, ttl: int)
    requires ConflictsUntil(turns, i, key, now, ttl)
    ensures i < 5 && (turns(i).readFails || !Conflicts(turns(i), key, now, ttl)) ==>
      AnswersTurn(turns(i), key, now, ttl, CallFrom(turns, 0, key, now, ttl))
    ensures i >= 5 ==> CallFrom(turns, 0, key, now, ttl) == (Failed, [])
  {
    ConflictsAreSkipped(turns, 0, if i < 5 then i else 5, key, now, ttl);
  }

  class ConfigMapStore {
    var current: Option<ConfigMap>

    method AllowRestart(turns: nat -> Turn, key: string, now: int, ttl: int)
      returns (result: CallResult, ghost writes: seq<ConfigMap>)
      modifies this
      ensures (result, writes) == CallFrom(turns, 0, key, now, ttl)
      ensures writes != [] ==> current == Some(writes[0])
    {
      writes := [];
      var attempt: nat := 0;
      while attempt < MAX_ATTEMPTS
        invariant attempt <= MAX_ATTEMPTS
        invariant CallFrom(turns, 0, key, now, ttl) == CallFrom(turns, attempt, key, now, ttl)
      {
        var turn := turns(attempt);
        attempt := attempt + 1;
        current := turn.atRead;
        if turn.readFails { return Failed, []; }
        var seen := current;
        current := turn.atWrite;
        var data: map<string, Entry>;
        if seen.None? {
          data := map[key := At(now)];
        } else {
          data := PruneEntries(seen.value.data, now, ttl);
          if key in data { return Denied(data[key].stamp), []; }
          data := data[key := At(now)];
        }
        var stored, conflict := Submit(seen, data, turn.fault);
        if stored {
          return if turn.fault.AnswerLost? then Failed else Granted, [current.value];
        }
        if !conflict || !turn.fault.NoFault? { return Failed, []; }
      }
      return Failed, [];
    }

    /** Create, or update at the version seen; without effect on a conflict or a lost request. */
    method Submit(seen: Option<ConfigMap>, data: map<string, Entry>, fault: Fault)
        returns (stored: bool, conflict: bool)
      modifies this
      ensures conflict <==> if seen.None? then old(current).Some?
                            else old(current).Some? && old(current).value.version != seen.value.version
      ensures stored <==> !fault.RequestLost? && !conflict && (seen.Some? ==> old(current).Some?)
      ensures current == if stored then Some(ConfigMap(if seen.None? then 0 else seen.value.version + 1, data))
          else old(current)
    {
      if seen.None? {
        conflict := current.Some?;
        stored := !conflict && !fault.RequestLost?;
        if stored { current := Some(ConfigMap(0, data)); }
      } else {
        conflict := current.Some? && current.value.version != seen.value.version;
        stored := current.Some? && !conflict && !fault.RequestLost?;
        if stored { current := Some(ConfigMap(seen.value.version + 1, data)); }
      }
    }
  }

  // ---- Any number of controllers on one store ----

  datatype CallState =
    | Sampled(key: string, now: int, attempt: nat)
    | Looked(key: string, now: int, attempt: nat, seen: Option<ConfigMap>)
    | Done(key: string, now: int, result: CallResult)

  /** A write that reached the store: by which call, for which entry, at what store time, and whether the call knows. */
  datatype Write = Write(call: nat, key: string, stamp: int, at: int, acked: bool)

  datatype State = State(clock: int, store: Option<ConfigMap>, calls: map<nat, CallState>, writes: seq<Write>)

  datatype Action =
    | Tick(to: int)
    | Begin(call: nat, jobKey: string)
    | Look(call: nat, fails: bool)
    | Attempt(call: nat, fault: Fault)
    | Relabel  // someone edits the object without touching its data

  predicate Enabled(s: State, a: Action) {
    match a
    case Tick(to) => s.clock <= to
    case Begin(c, _) => c !in s.calls
    case Look(c, _) => c in s.calls && s.calls[c].Sampled?
    case Attempt(c, _) => c in s.calls && s.calls[c].Looked?
    case Relabel => s.store.Some?
  }

  function Retry(c: CallState): CallState
    requires c.Looked?
  {
    if c.attempt < MAX_ATTEMPTS then Sampled(c.key, c.now, c.attempt + 1) else Done(c.key, c.now, Failed)
  }

  function Next(s: State, a: Action, ttl: int): State
    requires Enabled(s, a)
  {
    match a
    case Tick(to) => s.(clock := to)
    case Begin(c, key) => s.(calls := s.calls[c := Sampled(key, s.clock, 1)])
    case Look(c, fails) =>
      var call := s.calls[c];
      s.(calls := s.calls[c := if fails then Done(call.key, call.now, Failed)
                               else Looked(call.key, call.now, call.attempt, s.store)])
    case Attempt(c, fault) => Attempted(s, c, fault, ttl)
    case Relabel => s.(store := Some(s.store.value.(version := s.store.value.version + 1)))
  }

  function Attempted(s: State, c: nat, fault: Fault, ttl: int): State
    requires c in s.calls && s.calls[c].Looked?
  {
    var call := s.calls[c];
    match TryWrite(s.store, call.seen, call.key, call.now, ttl)
    case NoWrite(last) => s.(calls := s.calls[c := Done(call.key, call.now, Denied(last))])
    case Missing => s.(calls := s.calls[c := Done(call.key, call.now, Failed)])
    case Conflict => s.(calls := s.calls[c := if fault.NoFault? then Retry(call) else Done(call.key, call.now, Failed)])
    case Applied(stored) =>
      if fault.RequestLost? then s.(calls := s.calls[c := Done(call.key, call.now, Failed)])
      else s.(store := Some(stored),
              calls := s.calls[c := Done(call.key, call.now, if fault.NoFault? then Granted else Failed)],
              writes := s.writes + [Write(c, call.key, call.now, s.clock, fault.NoFault?)])
  }

  /** Any store content may be found at the start, or none. */
  predicate Initial(s: State) {
    s.calls == map[] && s.writes == []
  }

  /** s is reached from an initial state by the given actions, in this order. */
  ghost predicate Reaches(actions: seq<Action>, s: State, ttl: int)
    decreases |actions|
  {
    if actions == [] then Initial(s)
    else
      var front, last := actions[..|actions| - 1], actions[|actions| - 1];
      exists p :: Reaches(front, p, ttl) && Steps(p, last, s, ttl)
  }

  ghost predicate Steps(p: State, a: Action, s: State, ttl: int) {
    Enabled(p, a) && s == Next(p, a, ttl)
  }

  // ---- The invariant ----

  /** A snapshot with the current version is the current content. */
  ghost predicate SnapshotsHold(s: State) {
    forall c :: c in s.calls && s.calls[c].Looked? && s.calls[c].seen.Some? ==>
      && s.store.Some? && s.calls[c].seen.value.version <= s.store.value.version
      && (s.calls[c].seen.value.version == s.store.value.version ==> s.calls[c].seen == s.store)
  }

  ghost predicate SamplesArePast(s: State) {
    && (forall c :: c in s.calls ==> s.calls[c].now <= s.clock)
    && (forall i :: 0 <= i < |s.writes| ==> s.writes[i].stamp <= s.writes[i].at <= s.clock)
  }

  ghost predicate Ordered(s: State) {
    && (s.store.None? ==> s.writes == [])
    && (forall i, j :: 0 <= i < j < |s.writes| ==> s.writes[i].at <= s.writes[j].at)
  }

  /** A write whose time to live is not over is still in the store, and is the last for its entry. */
  ghost predicate LiveIsStored(s: State, ttl: int) {
    forall i :: 0 <= i < |s.writes| && s.clock < s.writes[i].stamp + ttl ==>
      var w := s.writes[i];
      && s.store.Some? && w.key in s.store.value.data && s.store.value.data[w.key] == At(w.stamp)
      && forall j :: i < j < |s.writes| ==> s.writes[j].key != w.key
  }

  /** Each write for an entry commits no earlier than the stamp of every earlier one plus the time to live. */
  ghost predicate Spaced(writes: seq<Write>, ttl: int) {
    forall i, j :: 0 <= i < j < |writes| && writes[i].key == writes[j].key ==> writes[i].stamp + ttl <= writes[j].at
  }

  ghost predicate SpacingInv(s: State, ttl: int) {
    SnapshotsHold(s) && SamplesArePast(s) && Ordered(s) && LiveIsStored(s, ttl) && Spaced(s.writes, ttl)
  }

  lemma AttemptKeepsSpacing(s: State, c: nat, fault: Fault, ttl: int)
    requires SpacingInv(s, ttl) && c in s.calls && s.calls[c].Looked?
    ensures SpacingInv(Attempted(s, c, fault, ttl), ttl)
  {
    var call := s.calls[c];
    var answer := TryWrite(s.store, call.seen, call.key, call.now, ttl);
    if answer.Applied? && !fault.RequestLost? {
      AppliedKeepsSpacing(s, c, fault, ttl);
    } else {
      NoWriteKeepsSpacing(s, c, Attempted(s, c, fault, ttl).calls[c], ttl);
    }
  }

  lemma NoWriteKeepsSpacing(s: State, c: nat, call: CallState, ttl: int)
    requires SpacingInv(s, ttl) && call.now <= s.clock
    requires call.Looked? ==> call.seen == s.store
    ensures SpacingInv(s.(calls := s.calls[c := call]), ttl)
  {
  }

  /** The heart of the matter: whoever commits for an entry waited out every earlier write for it. */
  lemma CommitterWaited(s: State, c: nat, ttl: int, i: int)
    requires SpacingInv(s, ttl) && c in s.calls && s.calls[c].Looked? && 0 <= i < |s.writes|
    requires TryWrite(s.store, s.calls[c].seen, s.calls[c].key, s.calls[c].now, ttl).Applied?
    requires s.writes[i].key == s.calls[c].key
    ensures s.writes[i].stamp + ttl <= s.clock
  {
  }

  lemma AppliedKeepsSpacing(s: State, c: nat, fault: Fault, ttl: int)
    requires SpacingInv(s, ttl) && c in s.calls && s.calls[c].Looked? && !fault.RequestLost?
    requires TryWrite(s.store, s.calls[c].seen, s.calls[c].key, s.calls[c].now, ttl).Applied?
    ensures SpacingInv(Attempted(s, c, fault, ttl), ttl)
  {
    AppliedKeepsOrder(s, c, fault, ttl);
    AppliedKeepsLive(s, c, fault, ttl);
    var t, n := Attempted(s, c, fault, ttl), |s.writes|;
    assert t.writes[..n] == s.writes;
    forall i | 0 <= i < n && t.writes[i].key == t.writes[n].key ensures t.writes[i].stamp + ttl <= t.writes[n].at {
      CommitterWaited(s, c, ttl, i);
    }
  }

  lemma AppliedKeepsOrder(s: State, c: nat, fault: Fault, ttl: int)
    requires SpacingInv(s, ttl) && c in s.calls && s.calls[c].Looked? && !fault.RequestLost?
    requires TryWrite(s.store, s.calls[c].seen, s.calls[c].key, s.calls[c].now, ttl).Applied?
    ensures var t := Attempted(s, c, fault, ttl); SnapshotsHold(t) && SamplesArePast(t) && Ordered(t)
  {
  }

  lemma AppliedKeepsLive(s: State, c: nat, fault: Fault, ttl: int)
    requires SpacingInv(s, ttl) && c in s.calls && s.calls[c].Looked? && !fault.RequestLost?
    requires TryWrite(s.store, s.calls[c].seen, s.calls[c].key, s.calls[c].now, ttl).Applied?
    ensures LiveIsStored(Attempted(s, c, fault, ttl), ttl)
  {
  }

  lemma StepKeepsSpacing(s: State, a: Action, ttl: int)
    requires SpacingInv(s, ttl) && Enabled(s, a)
    ensures SpacingInv(Next(s, a, ttl), ttl)
  {
    match a
    case Tick(to) =>
    case Begin(c, key) => NoWriteKeepsSpacing(s, c, Next(s, a, ttl).calls[c], ttl);
    case Look(c, fails) => NoWriteKeepsSpacing(s, c, Next(s, a, ttl).calls[c], ttl);
    case Attempt(c, fault) => AttemptKeepsSpacing(s, c, fault, ttl);
    case Relabel =>
  }

  lemma {:induction false} ReachableIsSpaced(actions: seq<Action>, s: State, ttl: int)
    requires Reaches(actions, s, ttl)
    ensures SpacingInv(s, ttl)
    decreases |actions|
  {
    if actions == [] {
    } else {
      var front, last := actions[..|actions| - 1], actions[|actions| - 1];
      var p :| Reaches(front, p, ttl) && Steps(p, last, s, ttl);
      ReachableIsSpaced(front, p, ttl);
      StepKeepsSpacing(p, last, ttl);
    }
  }

  // ---- Retries among the controllers ----

  /** How often a call has tried to write. */
  function Tries(actions: seq<Action>, c: nat): nat {
    if actions == [] then 0 else
      Tries(actions[..|actions| - 1], c)
      + (if actions[|actions| - 1].Attempt? && actions[|actions| - 1].call == c then 1 else 0)
  }

  predicate Underway(s: State, c: nat) {
    c in s.calls && !s.calls[c].Done?
  }

  /** An unfinished call is at its first to fifth attempt, one more than it has tried. */
  ghost predicate TriesCounted(actions: seq<Action>, s: State) {
    && (forall c :: c !in s.calls ==> Tries(actions, c) == 0)
    && (forall c :: Underway(s, c) ==> 1 <= s.calls[c].attempt == Tries(actions, c) + 1 <= 5)
  }

  lemma TriesAfter(actions: seq<Action>, a: Action, c: nat)
    ensures Tries(actions + [a], c) == Tries(actions, c) + if a.Attempt? && a.call == c then 1 else 0
  {
    assert (actions + [a])[..|actions|] == actions;
  }

  lemma {:induction false} AttemptsAreCounted(actions: seq<Action>, s: State, ttl: int)
    requires Reaches(actions, s, ttl)
    ensures TriesCounted(actions, s)
    decreases |actions|
  {
    if actions == [] {
    } else {
      var front, last := actions[..|actions| - 1], actions[|actions| - 1];
      var p :| Reaches(front, p, ttl) && Steps(p, last, s, ttl);
      AttemptsAreCounted(front, p, ttl);
      assert actions == front + [last];
      StepKeepsCount(front, p, last, ttl);
    }
  }

  lemma StepKeepsCount(actions: seq<Action>, s: State, a: Action, ttl: int)
    requires TriesCounted(actions, s) && Enabled(s, a)
    ensures TriesCounted(actions + [a], Next(s, a, ttl))
  {
    var t := Next(s, a, ttl);
    forall c: nat
      ensures c !in t.calls ==> Tries(actions + [a], c) == 0
      ensures Underway(t, c) ==> 1 <= t.calls[c].attempt == Tries(actions + [a], c) + 1 <= 5
    {
      TriesAfter(actions, a, c);
      StepCountsOne(s, a, c, ttl);
    }
  }

  /** Only its own attempts change how often a call has tried. */
  lemma StepCountsOne(s: State, a: Action, c: nat, ttl: int)
    requires Enabled(s, a)
    ensures var t := Next(s, a, ttl);
      && (c in s.calls ==> c in t.calls)
      && (Underway(t, c) && c !in s.calls ==> t.calls[c].attempt == 1 && !a.Attempt?)
      && (Underway(t, c) && c in s.calls ==> Underway(s, c))
      && (Underway(t, c) && Underway(s, c) ==>
            t.calls[c].attempt == s.calls[c].attempt + if a.Attempt? && a.call == c then 1 else 0)
      && (Underway(t, c) && Underway(s, c) && a.Attempt? && a.call == c ==> s.calls[c].attempt < 5)
  {
  }

  /** What an attempt leads to, by the answer of the store. */
  ghost predicate AttemptLeadsTo(s: State, c: nat, fault: Fault, ttl: int, t: State)
    requires c in s.calls && s.calls[c].Looked? && c in t.calls
  {
    var call := s.calls[c];
    match TryWrite(s.store, call.seen, call.key, call.now, ttl)
    case NoWrite(last) => t.calls[c] == Done(call.key, call.now, Denied(last)) && t.store == s.store
    case Missing => t.calls[c] == Done(call.key, call.now, Failed) && t.store == s.store
    case Conflict => t.store == s.store && t.writes == s.writes
    case Applied(stored) =>
      && t.calls[c] == Done(call.key, call.now, if fault.NoFault? then Granted else Failed)
      && t.store == if fault.RequestLost? then s.store else Some(stored)
  }

  /**
   * In every reachable state a call that meets nothing but a conflict looks again with the same clock sample,
   * unless it has tried five times; any other answer ends it.
   */
  lemma ConflictsAreRetriedByAll(actions: seq<Action>, s: State, c: nat, fault: Fault, ttl: int)
    requires Reaches(actions, s, ttl) && c in s.calls && s.calls[c].Looked?
    ensures var call, t := s.calls[c], Next(s, Attempt(c, fault), ttl);
      && t.calls.Keys == s.calls.Keys && (forall d :: d in s.calls && d != c ==> t.calls[d] == s.calls[d])
      && AttemptLeadsTo(s, c, fault, ttl, t)
      && (TryWrite(s.store, call.seen, call.key, call.now, ttl) == Conflict ==>
            t.calls[c] == if fault.NoFault? && Tries(actions, c) < 4 then Sampled(call.key, call.now, call.attempt + 1)
                          else Done(call.key, call.now, Failed))
  {
    AttemptsAreCounted(actions, s, ttl);
    assert Underway(s, c);
  }

  // ---- Grants per time span ----

  predicate Within(w: Write, key: string, from: int, span: int) {
    w.key == key && from <= w.at <= from + span
  }

  /** The commits for an entry within a time span. */
  function Commits(writes: seq<Write>, key: string, from: int, span: int): seq<Write> {
    if writes == [] then [] else
      var w := writes[|writes| - 1];
      Commits(writes[..|writes| - 1], key, from, span) + if Within(w, key, from, span) then [w] else []
  }

  lemma {:induction false} CommitsComeFrom(writes: seq<Write>, key: string, from: int, span: int, k: nat)
      returns (i: nat)
    requires k < |Commits(writes, key, from, span)|
    ensures i < |writes| && writes[i] == Commits(writes, key, from, span)[k] && Within(writes[i], key, from, span)
  {
    var n := |writes| - 1;
    if k < |Commits(writes[..n], key, from, span)| {
      i := CommitsComeFrom(writes[..n], key, from, span, k);
    } else {
      i := n;
    }
  }

  /** n gaps in a row. */
  function Gaps(n: nat, gap: int): int {
    if n == 0 then 0 else Gaps(n - 1, gap) + gap
  }

  lemma {:induction false} GapsIsProduct(n: nat, gap: int)
    ensures Gaps(n, gap) == n * gap
  {
    if n == 0 {
    } else {
      GapsIsProduct(n - 1, gap);
    }
  }

  lemma {:induction false} CommitsAreApart(writes: seq<Write>, ttl: int, delay: int, key: string, from: int, span: int)
    requires Spaced(writes, ttl)
    requires forall i :: 0 <= i < |writes| ==> writes[i].at - writes[i].stamp <= delay
    ensures var c := Commits(writes, key, from, span);
            c != [] ==> c[0].at + Gaps(|c| - 1, ttl - delay) <= c[|c| - 1].at
  {
    if writes == [] {
    } else {
      var n := |writes| - 1;
      CommitsAreApart(writes[..n], ttl, delay, key, from, span);
      var c := Commits(writes[..n], key, from, span);
      if c != [] && Within(writes[n], key, from, span) {
        var i := CommitsComeFrom(writes[..n], key, from, span, |c| - 1);
        assert writes[i].stamp + ttl <= writes[n].at;
        assert Gaps(|c|, ttl - delay) == Gaps(|c| - 1, ttl - delay) + (ttl - delay);
      }
    }
  }

  lemma CommitsFit(writes: seq<Write>, ttl: int, delay: int, key: string, from: int, span: nat)
    requires Spaced(writes, ttl)
    requires forall i :: 0 <= i < |writes| ==> writes[i].at - writes[i].stamp <= delay
    ensures var n := |Commits(writes, key, from, span)|; n > 0 ==> Gaps(n - 1, ttl - delay) <= span
  {
    var n := |Commits(writes, key, from, span)|;
    CommitsAreApart(writes, ttl, delay, key, from, span);
    if n > 0 {
      var first := CommitsComeFrom(writes, key, from, span, 0);
      var last := CommitsComeFrom(writes, key, from, span, n - 1);
    }
  }

  /**
   * No restart storm: in every reachable state, if each write committed within delay of sampling its
   * clock, the commits for a job within a span, and so its grants, are at most one more than the
   * number of gaps of ttl - delay that fit into the span.
   */
  lemma RestartsAreBounded(actions: seq<Action>, s: State, ttl: int, delay: int, key: string, from: int, span: nat)
    requires Reaches(actions, s, ttl) && delay < ttl
    requires forall i :: 0 <= i < |s.writes| ==> s.writes[i].at - s.writes[i].stamp <= delay
    ensures var n := |Commits(s.writes, key, from, span)|; n > 0 ==> (n - 1) * (ttl - delay) <= span
  {
    ReachableIsSpaced(actions, s, ttl);
    CommitsFit(s.writes, ttl, delay, key, from, span);
    var n := |Commits(s.writes, key, from, span)|;
    if n > 0 {
      GapsIsProduct(n - 1, ttl - delay);
    }
  }

  // ---- What each call may conclude ----

  ghost predicate IsWriteOf(s: State, i: int, c: nat) {
    0 <= i < |s.writes| && s.writes[i].call == c
  }

  /** Every write is by a finished call, with that call's entry and stamp; it granted if it saw the answer. */
  ghost predicate CallsInv(s: State, ttl: int) {
    && (forall i :: 0 <= i < |s.writes| ==>
          var w := s.writes[i];
          && w.call in s.calls && s.calls[w.call].Done? && s.calls[w.call].key == w.key
              && s.calls[w.call].now == w.stamp
          && s.calls[w.call].result == (if w.acked then Granted else Failed))
    && (forall i, j :: 0 <= i < j < |s.writes| ==> s.writes[i].call != s.writes[j].call)
    && (forall c :: c in s.calls && s.calls[c].Done? && s.calls[c].result.Granted? ==> exists i :: IsWriteOf(s, i, c))
    && (forall c ::
        c in s.calls && s.calls[c].Done? && s.calls[c].result.Denied? ==> s.calls[c].now < s.calls[c].result.last + ttl)
  }

  lemma CallStepKeepsCalls(s: State, c: nat, call: CallState, ttl: int)
    requires CallsInv(s, ttl) && (c in s.calls ==> !s.calls[c].Done?)
    requires call.Done? ==> !call.result.Granted? && (call.result.Denied? ==> call.now < call.result.last + ttl)
    ensures CallsInv(s.(calls := s.calls[c := call]), ttl)
  {
    var t := s.(calls := s.calls[c := call]);
    forall d | d in t.calls && t.calls[d].Done? && t.calls[d].result.Granted? ensures exists i :: IsWriteOf(t, i, d) {
      var i :| IsWriteOf(s, i, d);
      assert IsWriteOf(t, i, d);
    }
  }

  lemma StepKeepsCalls(s: State, a: Action, ttl: int)
    requires CallsInv(s, ttl) && Enabled(s, a)
    ensures CallsInv(Next(s, a, ttl), ttl)
  {
    var t := Next(s, a, ttl);
    match a
    case Begin(c, key) => CallStepKeepsCalls(s, c, t.calls[c], ttl);
    case Look(c, fails) => CallStepKeepsCalls(s, c, t.calls[c], ttl);
    case Attempt(c, fault) =>
      if t.writes == s.writes {
        CallStepKeepsCalls(s, c, t.calls[c], ttl);
      } else {
        assert IsWriteOf(t, |s.writes|, c);
        forall d | d in t.calls && t.calls[d].Done? && t.calls[d].result.Granted? && d != c
          ensures exists i :: IsWriteOf(t, i, d)
        {
          var i :| IsWriteOf(s, i, d);
          assert IsWriteOf(t, i, d);
        }
      }
    case _ =>
      forall d | d in t.calls && t.calls[d].Done? && t.calls[d].result.Granted? ensures exists i :: IsWriteOf(t, i, d) {
        var i :| IsWriteOf(s, i, d);
        assert IsWriteOf(t, i, d);
      }
  }

  /** Under every interleaving: a grant has one write, a denial none, a failure at most one unacknowledged one. */
  lemma {:induction false} CallsAreSound(actions: seq<Action>, s: State, ttl: int)
    requires Reaches(actions, s, ttl)
    ensures CallsInv(s, ttl)
    decreases |actions|
  {
    if actions == [] {
    } else {
      var front, last := actions[..|actions| - 1], actions[|actions| - 1];
      var p :| Reaches(front, p, ttl) && Steps(p, last, s, ttl);
      CallsAreSound(front, p, ttl);
      StepKeepsCalls(p, last, ttl);
    }
  }

  // ---- Stamps, as opposed to commits, may be closer ----

  /** All calls of the run are for the given jobs. */
  ghost predicate Over(actions: seq<Action>, jobs: set<string>) {
    forall i :: 0 <= i < |actions| && actions[i].Begin? ==> actions[i].jobKey in jobs
  }

  /**
   * Two grants for one job can carry stamps at any distance below the time to live, for any two jobs: a call
   * samples its clock, another job's call prunes the first restart, and then the first call goes on.
   */
  lemma StampsCanBeCloser(a: string, b: string, ttl: nat, distance: nat) returns (actions: seq<Action>, s: State)
    requires a != b && distance < ttl
    ensures Reaches(actions, s, ttl) && Over(actions, {a, b})
    ensures s.writes == [Write(1, a, 0, 0, true), Write(3, b, ttl, ttl, true), Write(2, a, distance, ttl, true)]
  {
    actions, s := FirstGrant(a, ttl, {a, b});
    actions, s := SampledEarly(actions, s, a, ttl, distance, {a, b});
    actions, s := OtherJob(actions, s, a, b, ttl, {a, b});
    actions, s := LateCommit(actions, s, a, b, ttl, distance, {a, b});
  }

  lemma FirstGrant(a: string, ttl: nat, jobs: set<string>) returns (actions: seq<Action>, s: State)
    requires a in jobs
    ensures Reaches(actions, s, ttl) && Over(actions, jobs)
    ensures s == State(0, Some(ConfigMap(0, map[a := At(0)])), map[1 := Done(a, 0, Granted)], [Write(1, a, 0, 0, true)])
  {
    actions, s := [], State(0, None, map[], []);
    actions, s := Do(actions, s, Begin(1, a), ttl, jobs);
    actions, s := Do(actions, s, Look(1, false), ttl, jobs);
    actions, s := Do(actions, s, Attempt(1, NoFault), ttl, jobs);
  }

  lemma SampledEarly(before: seq<Action>, p: State, a: string, ttl: nat, distance: nat, jobs: set<string>)
    returns (actions: seq<Action>, s: State)
    requires Reaches(before, p, ttl) && Over(before, jobs) && a in jobs && distance < ttl
    requires p.clock == 0 && p.calls.Keys == {1}
    ensures Reaches(actions, s, ttl) && Over(actions, jobs)
    ensures s == p.(clock := ttl, calls := p.calls[2 := Sampled(a, distance, 1)])
  {
    actions, s := before, p;
    actions, s := Do(actions, s, Tick(distance), ttl, jobs);
    actions, s := Do(actions, s, Begin(2, a), ttl, jobs);
    actions, s := Do(actions, s, Tick(ttl), ttl, jobs);
  }

  lemma OtherJob(before: seq<Action>, p: State, a: string, b: string, ttl: nat, jobs: set<string>)
    returns (actions: seq<Action>, s: State)
    requires Reaches(before, p, ttl) && Over(before, jobs) && b in jobs && a != b
    requires p.clock == ttl && p.store == Some(ConfigMap(0, map[a := At(0)])) && p.calls.Keys == {1, 2}
    ensures Reaches(actions, s, ttl) && Over(actions, jobs)
    ensures s == State(ttl, Some(ConfigMap(1, map[b := At(ttl)])), p.calls[3 := Done(b, ttl, Granted)],
                       p.writes + [Write(3, b, ttl, ttl, true)])
  {
    actions, s := before, p;
    actions, s := Do(actions, s, Begin(3, b), ttl, jobs);
    actions, s := Do(actions, s, Look(3, false), ttl, jobs);
    assert Prune(p.store.value.data, ttl, ttl) == map[];
    actions, s := Do(actions, s, Attempt(3, NoFault), ttl, jobs);
  }

  lemma LateCommit(before: seq<Action>, p: State, a: string, b: string, ttl: nat, distance: nat, jobs: set<string>)
    returns (actions: seq<Action>, s: State)
    requires Reaches(before, p, ttl) && Over(before, jobs) && a != b && distance < ttl
    requires p.clock == ttl && p.store == Some(ConfigMap(1, map[b := At(ttl)]))
    requires 2 in p.calls && p.calls[2] == Sampled(a, distance, 1)
    ensures Reaches(actions, s, ttl) && Over(actions, jobs)
    ensures s.writes == p.writes + [Write(2, a, distance, ttl, true)]
  {
    actions, s := before, p;
    actions, s := Do(actions, s, Look(2, false), ttl, jobs);
    assert Prune(p.store.value.data, distance, ttl) == p.store.value.data;
    actions, s := Do(actions, s, Attempt(2, NoFault), ttl, jobs);
  }

  lemma Do(actions: seq<Action>, p: State, a: Action, ttl: int, jobs: set<string>)
    returns (longer: seq<Action>, s: State)
    requires Reaches(actions, p, ttl) && Enabled(p, a) && Over(actions, jobs) && (a.Begin? ==> a.jobKey in jobs)
    ensures Reaches(longer, s, ttl) && s == Next(p, a, ttl) && Over(longer, jobs)
  {
    longer, s := actions + [a], Next(p, a, ttl);
    assert longer[..|actions|] == actions;
    assert Steps(p, a, s, ttl);
  }

  /** Write k could prune write i: its stamp lies past the time to live of that one. */
  predicate PastLife(writes: seq<Write>, i: nat, k: nat, ttl: int)
    requires i < |writes| && k < |writes|
  {
    writes[i].stamp + ttl <= writes[k].stamp
  }

  /** The entry of a write is in the store until a later write replaces or may prune it. */
  ghost predicate EntryStays(s: State, i: nat, ttl: int)
    requires i < |s.writes|
  {
    var w := s.writes[i];
    (forall k :: i < k < |s.writes| ==> s.writes[k].key != w.key && !PastLife(s.writes, i, k, ttl)) ==>
      s.store.Some? && w.key in s.store.value.data && s.store.value.data[w.key] == At(w.stamp)
  }

  /** Between i and j another job wrote at a time when it could prune write i. */
  ghost predicate PrunedBetween(writes: seq<Write>, i: nat, j: nat, ttl: int)
    requires i < |writes| && j < |writes|
  {
    exists k :: i < k < j && writes[k].key != writes[i].key && PastLife(writes, i, k, ttl)
  }

  predicate TooClose(writes: seq<Write>, i: nat, j: nat, ttl: int)
    requires i < j < |writes|
  {
    writes[i].key == writes[j].key && !PastLife(writes, i, j, ttl)
  }

  ghost predicate CloseOnlyAcross(s: State, ttl: int) {
    && (forall i :: 0 <= i < |s.writes| ==> EntryStays(s, i, ttl))
    && (forall i, j :: 0 <= i < j < |s.writes| && TooClose(s.writes, i, j, ttl) ==> PrunedBetween(s.writes, i, j, ttl))
  }

  lemma PrunedBetweenPersists(writes: seq<Write>, longer: seq<Write>, i: nat, j: nat, ttl: int)
    requires writes <= longer && i < j < |writes| && PrunedBetween(writes, i, j, ttl)
    ensures PrunedBetween(longer, i, j, ttl)
  {
    var k :| i < k < j && writes[k].key != writes[i].key && PastLife(writes, i, k, ttl);
    assert longer[k].key != longer[i].key && PastLife(longer, i, k, ttl);
  }

  /** A further write for the job of write i, too close to it: some other job must have pruned write i before. */
  lemma {:induction false} NewWriteIsAcross(s: State, writes: seq<Write>, i: nat, ttl: nat)
    requires CloseOnlyAcross(s, ttl) && s.writes < writes && |writes| == |s.writes| + 1 && i < |s.writes|
    requires TooClose(writes, i, |s.writes|, ttl)
    requires var w := writes[|s.writes|]; s.store.Some? ==> !LiveAt(s.store.value.data, w.key, w.stamp, ttl)
    ensures PrunedBetween(writes, i, |s.writes|, ttl)
    decreases |s.writes| - i
  {
    var n := |s.writes|;
    assert EntryStays(s, i, ttl);
    var k :| i < k < n && (s.writes[k].key == s.writes[i].key || PastLife(s.writes, i, k, ttl));
    assert writes[k] == s.writes[k] && writes[i] == s.writes[i];
    if s.writes[k].key != s.writes[i].key {
      assert PastLife(writes, i, k, ttl);
    } else if PastLife(s.writes, i, k, ttl) {
      NewWriteIsAcross(s, writes, k, ttl);
      LaterPruneCounts(writes, i, k, n, ttl);
    } else {
      assert TooClose(s.writes, i, k, ttl);
      PrunedBetweenPersists(s.writes, writes, i, k, ttl);
      var m :| i < m < k && writes[m].key != writes[i].key && PastLife(writes, i, m, ttl);
    }
  }

  lemma LaterPruneCounts(writes: seq<Write>, i: nat, k: nat, j: nat, ttl: nat)
    requires i < k < j < |writes| && writes[k].key == writes[i].key && PastLife(writes, i, k, ttl)
    requires PrunedBetween(writes, k, j, ttl)
    ensures PrunedBetween(writes, i, j, ttl)
  {
    var m :| k < m < j && writes[m].key != writes[k].key && PastLife(writes, k, m, ttl);
    assert PastLife(writes, i, m, ttl);
  }

  lemma StepKeepsAcross(s: State, a: Action, ttl: nat)
    requires SpacingInv(s, ttl) && CloseOnlyAcross(s, ttl) && Enabled(s, a)
    ensures CloseOnlyAcross(Next(s, a, ttl), ttl)
  {
    var t := Next(s, a, ttl);
    if t.writes == s.writes {
      SameWritesKeepAcross(s, t, ttl);
    } else {
      WriteKeepsEntries(s, a.call, a.fault, ttl);
      WriteKeepsAcross(s, a.call, a.fault, ttl);
    }
  }

  lemma SameWritesKeepAcross(s: State, t: State, ttl: nat)
    requires CloseOnlyAcross(s, ttl) && t.writes == s.writes
    requires s.store.Some? ==> t.store.Some? && t.store.value.data == s.store.value.data
    ensures CloseOnlyAcross(t, ttl)
  {
    forall i | 0 <= i < |t.writes| ensures EntryStays(t, i, ttl) {
      assert EntryStays(s, i, ttl);
    }
  }

  lemma WriteKeepsEntries(s: State, c: nat, fault: Fault, ttl: nat)
    requires SpacingInv(s, ttl) && CloseOnlyAcross(s, ttl) && c in s.calls && s.calls[c].Looked?
    requires Attempted(s, c, fault, ttl).writes != s.writes
    ensures var t := Attempted(s, c, fault, ttl); forall i :: 0 <= i < |t.writes| ==> EntryStays(t, i, ttl)
  {
    var t, n, call := Attempted(s, c, fault, ttl), |s.writes|, s.calls[c];
    assert call.seen == s.store;
    forall i | 0 <= i < |t.writes| ensures EntryStays(t, i, ttl) {
      if i < n {
        EntryKept(s, t, i, call.now, ttl);
      }
    }
  }

  lemma EntryKept(s: State, t: State, i: nat, now: int, ttl: nat)
    requires i < |s.writes| && EntryStays(s, i, ttl) && s.writes < t.writes && |t.writes| == |s.writes| + 1
    requires t.writes[|s.writes|].stamp == now && t.store.Some?
    requires s.store.Some? ==> forall k :: LiveAt(s.store.value.data, k, now, ttl) && k != t.writes[|s.writes|].key ==>
               k in t.store.value.data && t.store.value.data[k] == s.store.value.data[k]
    ensures EntryStays(t, i, ttl)
  {
    var n, w := |s.writes|, t.writes[i];
    if forall k :: i < k < |t.writes| ==> t.writes[k].key != w.key && !PastLife(t.writes, i, k, ttl) {
      assert t.writes[n].key != w.key && !PastLife(t.writes, i, n, ttl);
      forall k | i < k < n ensures s.writes[k].key != w.key && !PastLife(s.writes, i, k, ttl) {
        assert t.writes[k].key != w.key && !PastLife(t.writes, i, k, ttl);
      }
      assert LiveAt(s.store.value.data, w.key, now, ttl);
    }
  }

  lemma WriteKeepsAcross(s: State, c: nat, fault: Fault, ttl: nat)
    requires SpacingInv(s, ttl) && CloseOnlyAcross(s, ttl) && c in s.calls && s.calls[c].Looked?
    requires Attempted(s, c, fault, ttl).writes != s.writes
    ensures var writes := Attempted(s, c, fault, ttl).writes;
      forall i, j :: 0 <= i < j < |writes| && TooClose(writes, i, j, ttl) ==> PrunedBetween(writes, i, j, ttl)
  {
    var writes, n := Attempted(s, c, fault, ttl).writes, |s.writes|;
    assert s.calls[c].seen == s.store;
    assert writes[..n] == s.writes;
    forall i, j | 0 <= i < j < |writes| && TooClose(writes, i, j, ttl) ensures PrunedBetween(writes, i, j, ttl) {
      if j == n {
        NewWriteIsAcross(s, writes, i, ttl);
      } else {
        assert TooClose(s.writes, i, j, ttl);
        PrunedBetweenPersists(s.writes, writes, i, j, ttl);
      }
    }
  }

  lemma {:induction false} AcrossThroughout(actions: seq<Action>, s: State, ttl: nat)
    requires Reaches(actions, s, ttl)
    ensures CloseOnlyAcross(s, ttl)
    decreases |actions|
  {
    if actions == [] {
    } else {
      var front, last := actions[..|actions| - 1], actions[|actions| - 1];
      var p :| Reaches(front, p, ttl) && Steps(p, last, s, ttl);
      AcrossThroughout(front, p, ttl);
      ReachableIsSpaced(front, p, ttl);
      StepKeepsAcross(p, last, ttl);
    }
  }

  /**
   * Stamps of one job come closer than the time to live only across a write for another job whose own stamp
   * lies past the time to live of the earlier one, so that it could prune it.
   */
  lemma OnlyOtherJobsBringStampsCloser(actions: seq<Action>, s: State, ttl: nat, i: nat, j: nat)
    requires Reaches(actions, s, ttl)
    requires i < j < |s.writes| && s.writes[i].key == s.writes[j].key && s.writes[j].stamp < s.writes[i].stamp + ttl
    ensures exists k :: i < k < j && s.writes[k].key != s.writes[i].key && s.writes[i].stamp + ttl <= s.writes[k].stamp
  {
    AcrossThroughout(actions, s, ttl);
    assert TooClose(s.writes, i, j, ttl);
    var k :| i < k < j && s.writes[k].key != s.writes[i].key && PastLife(s.writes, i, k, ttl);
  }

  ghost predicate KeysAmong(s: State, jobs: set<string>) {
    && (forall c :: c in s.calls ==> s.calls[c].key in jobs)
    && (forall i :: 0 <= i < |s.writes| ==> s.writes[i].key in jobs)
  }

  lemma {:induction false} OnlyTheseJobsWrite(actions: seq<Action>, s: State, ttl: int, jobs: set<string>)
    requires Reaches(actions, s, ttl) && Over(actions, jobs)
    ensures KeysAmong(s, jobs)
    decreases |actions|
  {
    if actions == [] {
    } else {
      var front, last := actions[..|actions| - 1], actions[|actions| - 1];
      var p :| Reaches(front, p, ttl) && Steps(p, last, s, ttl);
      OnlyTheseJobsWrite(front, p, ttl, jobs);
      StepKeepsKeys(p, last, ttl, jobs);
    }
  }

  lemma StepKeepsKeys(s: State, a: Action, ttl: int, jobs: set<string>)
    requires KeysAmong(s, jobs) && Enabled(s, a) && (a.Begin? ==> a.jobKey in jobs)
    ensures KeysAmong(Next(s, a, ttl), jobs)
  {
  }

  /** The stamps of any two writes for one job lie at least the time to live apart. */
  ghost predicate StampsApart(writes: seq<Write>, ttl: int) {
    forall i, j :: 0 <= i < j < |writes| && writes[i].key == writes[j].key ==> writes[i].stamp + ttl <= writes[j].stamp
  }

  ghost predicate AlwaysApart(jobs: set<string>, ttl: int) {
    forall actions, s :: Reaches(actions, s, ttl) && Over(actions, jobs) ==> StampsApart(s.writes, ttl)
  }

  /** In all runs over a set of jobs the stamps of each job keep apart if and only if the set has at most one job. */
  lemma StampsApartIffOneJob(jobs: set<string>, ttl: nat)
    requires ttl > 0
    ensures AlwaysApart(jobs, ttl) <==> |jobs| <= 1
  {
    if |jobs| <= 1 {
      forall actions, s | Reaches(actions, s, ttl) && Over(actions, jobs) ensures StampsApart(s.writes, ttl) {
        OneJobKeepsApart(actions, s, ttl, jobs);
      }
    } else {
      var a :| a in jobs;
      assert |jobs - {a}| == |jobs| - 1;
      var b :| b in jobs - {a};
      var actions, s := StampsCanBeCloser(a, b, ttl, 0);
      assert Over(actions, jobs);
      assert s.writes[0].key == s.writes[2].key && s.writes[2].stamp < s.writes[0].stamp + ttl;
    }
  }

  lemma OneJobKeepsApart(actions: seq<Action>, s: State, ttl: nat, jobs: set<string>)
    requires Reaches(actions, s, ttl) && Over(actions, jobs) && |jobs| <= 1
    ensures StampsApart(s.writes, ttl)
  {
    OnlyTheseJobsWrite(actions, s, ttl, jobs);
    forall i, j | 0 <= i < j < |s.writes| && s.writes[i].key == s.writes[j].key
      ensures s.writes[i].stamp + ttl <= s.writes[j].stamp
    {
      if s.writes[j].stamp < s.writes[i].stamp + ttl {
        OnlyOtherJobsBringStampsCloser(actions, s, ttl, i, j);
        var k :| i < k < j && s.writes[k].key != s.writes[i].key;
        AtMostOne(jobs, s.writes[k].key, s.writes[i].key);
      }
    }
  }

  lemma AtMostOne<T>(s: set<T>, x: T, y: T)
    requires |s| <= 1 && x in s && y in s
    ensures x == y
  {
    SubsetSize({x, y}, s);
  }

  // ---- Pruning forgets nothing that matters ----

  /** Calls one after the other: what the pruning ledger decides, and what it keeps. */
  function PruningStep(data: map<string, Entry>, key: string, now: int, ttl: int): (bool, map<string, Entry>) {
    match Decide(data, key, now, ttl)
    case Deny(_) => (false, data)
    case Record(data') => (true, data')
  }

  /** A ledger that remembers the last restart of every job forever. */
  function RememberingStep(restarts: map<string, int>, key: string, now: int, ttl: int): (bool, map<string, int>) {
    if key in restarts && now < restarts[key] + ttl then (false, restarts) else (true, restarts[key := now])
  }

  datatype Request = Request(key: string, now: int)

  function PruningRun(data: map<string, Entry>, requests: seq<Request>, ttl: int): seq<bool>
    decreases |requests|
  {
    if requests == [] then [] else
      var (allowed, data') := PruningStep(data, requests[0].key, requests[0].now, ttl);
      [allowed] + PruningRun(data', requests[1..], ttl)
  }

  function RememberingRun(restarts: map<string, int>, requests: seq<Request>, ttl: int): seq<bool>
    decreases |requests|
  {
    if requests == [] then [] else
      var (allowed, restarts') := RememberingStep(restarts, requests[0].key, requests[0].now, ttl);
      [allowed] + RememberingRun(restarts', requests[1..], ttl)
  }

  /** From time now on, both ledgers know the same live restarts. */
  ghost predicate SameLive(data: map<string, Entry>, restarts: map<string, int>, now: int, ttl: int) {
    && (forall k :: LiveAt(data, k, now, ttl) ==> k in restarts && restarts[k] == data[k].stamp)
    && (forall k :: k in restarts && now < restarts[k] + ttl ==> k in data && data[k] == At(restarts[k]))
  }

  lemma {:induction false} PruningRefinesRemembering(
    data: map<string, Entry>, restarts: map<string, int>, requests: seq<Request>, start: int, ttl: int)
    requires SameLive(data, restarts, start, ttl)
    requires forall i :: 0 <= i < |requests| ==> start <= requests[i].now
    requires forall i, j :: 0 <= i < j < |requests| ==> requests[i].now <= requests[j].now
    ensures PruningRun(data, requests, ttl) == RememberingRun(restarts, requests, ttl)
    decreases |requests|
  {
    if requests == [] {
    } else {
      var r := requests[0];
      var data', restarts' := PruningStep(data, r.key, r.now, ttl).1, RememberingStep(restarts, r.key, r.now, ttl).1;
      assert PruningStep(data, r.key, r.now, ttl).0 == RememberingStep(restarts, r.key, r.now, ttl).0;
      assert SameLive(data', restarts', r.now, ttl);
      PruningRefinesRemembering(data', restarts', requests[1..], r.now, ttl);
    }
  }

  /** Whatever the ledger contains at first, it decides like one that never forgets. */
  lemma PruningForgetsNothingThatMatters(data: map<string, Entry>, requests: seq<Request>, ttl: int)
    requires forall i, j :: 0 <= i < j < |requests| ==> requests[i].now <= requests[j].now
    ensures PruningRun(data, requests, ttl)
         == RememberingRun(map k | k in data && data[k].At? :: data[k].stamp, requests, ttl)
  {
    var restarts := map k | k in data && data[k].At? :: data[k].stamp;
    var start := if requests == [] then 0 else requests[0].now;
    PruningRefinesRemembering(data, restarts, requests, start, ttl);
  }
}
