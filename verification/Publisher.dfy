/** Delivering reports with retries: pkg/preflight/report_publisher.go and the sink of report_transport.go. */
module Publisher {
  import Base
  import WorkQueue

  datatype Delivery = Delivery(namespace: string, name: string, body: string)
  {
    function Key(): string { namespace + "/" + name }
  }

  /** Two reports share a key exactly when they are the same resource, as a namespace contains no slash. */
  lemma KeysSeparate(d: Delivery, e: Delivery)
    requires '/' !in d.namespace && '/' !in e.namespace
    ensures d.Key() == e.Key() <==> d.namespace == e.namespace && d.name == e.name
  {
    Base.SplitOnce(d.namespace, d.name, e.namespace, e.name, '/');
  }

  /** What goes wrong with one create request, if anything. */
  datatype Fault = NoFault | RequestLost | AnswerLost | Refused

  datatype Reply = Created | Exists | TransientError | PermanentError

  /** Create-if-absent against the API server. */
  function ReplyTo(stored: map<string, Delivery>, key: string, fault: Fault): Reply {
    match fault
    case Refused => PermanentError
    case NoFault => if key in stored then Exists else Created
    case _ => TransientError
  }

  function StoredAfter(stored: map<string, Delivery>, d: Delivery, fault: Fault): map<string, Delivery> {
    if d.Key() !in stored && (fault.NoFault? || fault.AnswerLost?) then stored[d.Key() := d] else stored
  }

  /** Where the single worker stands inside processNext. */
  datatype Worker =
    | Idle
    | Holding(key: string)
    | Loaded(key: string, report: Delivery)
    | Answered(key: string, report: Delivery, reply: Reply)
    | Observing(key: string)
    | Releasing(key: string)

  datatype State = State(
    running: bool,
    pending: map<string, Delivery>,
    queue: WorkQueue.Queue<string>,
    delayed: set<string>,          // waiting for their retry time
    worker: Worker,
    found: map<string, Delivery>,  // what the API server held at the start
    stored: map<string, Delivery>, // what it holds now
    refused: set<string>,          // answered by a permanent error
    created: set<string>,          // creations the worker saw acknowledged
    observed: seq<string>,         // observation events sent
    accepted: set<Delivery>)       // what Submit took

  /** A new publisher in front of an API server that may hold reports from before. */
  function Init(found: map<string, Delivery>): State {
    State(false, map[], WorkQueue.Queue([], {}, {}), {}, Idle, found, found, {}, {}, [], {})
  }

  predicate FiledByKey(stored: map<string, Delivery>) {
    forall k :: k in stored ==> stored[k].Key() == k
  }

  datatype Action =
    | Start
    | Submit(report: Delivery)
    | Take
    | Load
    | Write(fault: Fault)
    | Conclude
    | Observe
    | Release
    | Fire(key: string)

  predicate Enabled(s: State, a: Action) {
    match a
    case Start => true
    case Submit(_) => true
    case Take => s.running && s.worker.Idle? && s.queue.ready != []
    case Load => s.worker.Holding?
    case Write(_) => s.worker.Loaded?
    case Conclude => s.worker.Answered?
    case Observe => s.worker.Observing?
    case Release => s.worker.Releasing?
    case Fire(k) => k in s.delayed
  }

  predicate Accepts(s: State, report: Delivery) {
    s.running && report.namespace != "" && report.name != ""
  }

  function Next(s: State, a: Action): State
    requires Enabled(s, a)
  {
    match a
    case Start => s.(running := true)
    case Submit(report) =>
      if !Accepts(s, report) then s else
        s.(pending := s.pending[report.Key() := report], queue := s.queue.Add(report.Key()),
           accepted := s.accepted + {report})
    case Take => s.(queue := s.queue.Get(), worker := Holding(s.queue.ready[0]))
    case Load =>
      var k := s.worker.key;
      s.(worker := if k in s.pending then Loaded(k, s.pending[k]) else Releasing(k))
    case Write(fault) =>
      var Loaded(k, report) := s.worker;
      var reply := ReplyTo(s.stored, k, fault);
      s.(worker := Answered(k, report, reply), stored := StoredAfter(s.stored, report, fault),
         created := if reply.Created? then s.created + {k} else s.created)
    case Conclude =>
      var Answered(k, report, reply) := s.worker;
      (match reply
       case TransientError => s.(delayed := s.delayed + {k}, worker := Releasing(k))
       case PermanentError => s.(pending := s.pending - {k}, refused := s.refused + {k}, worker := Releasing(k))
       case Exists => s.(pending := s.pending - {k}, worker := Releasing(k))
       case Created => s.(pending := s.pending - {k}, worker := Observing(k)))
    case Observe => s.(observed := s.observed + [s.worker.key], worker := Releasing(s.worker.key))
    case Release => s.(queue := s.queue.Done(s.worker.key), worker := Idle)
    case Fire(k) => s.(delayed := s.delayed - {k}, queue := s.queue.Add(k))
  }

  ghost predicate Reaches(actions: seq<Action>, s: State)
    decreases |actions|
  {
    if actions == [] then FiledByKey(s.found) && s == Init(s.found)
    else
      var front, last := actions[..|actions| - 1], actions[|actions| - 1];
      exists p :: Reaches(front, p) && Steps(p, last, s)
  }

  ghost predicate Steps(p: State, a: Action, s: State) {
    Enabled(p, a) && s == Next(p, a)
  }

  // ---- The invariant ----

  /** The worker will still deal with the pending report of its key. */
  predicate WillServe(w: Worker, k: string) {
    (w.Holding? || w.Loaded? || w.Answered?) && w.key == k
  }

  ghost predicate QueueInv(s: State) {
    s.queue.Valid() && s.queue.processing == (if s.worker.Idle? then {} else {s.worker.key})
  }

  /** Each pending key is queued, marked for requeueing, waiting for its retry, or in the worker's hand. */
  ghost predicate PendingInv(s: State) {
    && (forall k :: k in s.pending ==> k in s.queue.dirty || k in s.delayed || WillServe(s.worker, k))
    && (forall k :: k in s.pending ==> s.pending[k] in s.accepted && s.pending[k].Key() == k)
    && (s.worker.Loaded? || s.worker.Answered?
        ==> s.worker.report in s.accepted && s.worker.report.Key() == s.worker.key)
  }

  predicate Settled(s: State, k: string) {
    k in s.stored || k in s.refused || k in s.pending
  }

  /** Each accepted key is stored, refused for good, or still pending. */
  ghost predicate AcceptedInv(s: State) {
    && (forall d :: d in s.accepted ==> Settled(s, d.Key()))
    && (s.worker.Answered? && (s.worker.reply.Created? || s.worker.reply.Exists?) ==> s.worker.key in s.stored)
  }

  /** Only accepted reports are added, under their own key, and what was there stays. */
  ghost predicate StoredInv(s: State) {
    && FiledByKey(s.found)
    && (forall k :: k in s.found ==> k in s.stored && s.stored[k] == s.found[k])
    && (forall k :: k in s.stored && k !in s.found ==> s.stored[k] in s.accepted && s.stored[k].Key() == k)
  }

  /** A creation is still to be announced. */
  predicate Announces(w: Worker) {
    w.Observing? || (w.Answered? && w.reply.Created?)
  }

  /** Exactly the acknowledged creations are announced, once each, except for one still in hand. */
  ghost predicate ObservedInv(s: State) {
    && Base.Distinct(s.observed)
    && s.created <= s.stored.Keys && s.created !! s.found.Keys
    && (forall k :: k in s.observed <==> k in s.created && !(Announces(s.worker) && s.worker.key == k))
    && (Announces(s.worker) ==> s.worker.key in s.created)
  }

  ghost predicate Inv(s: State) {
    QueueInv(s) && PendingInv(s) && AcceptedInv(s) && StoredInv(s) && ObservedInv(s)
  }

  lemma StepKeepsInv(s: State, a: Action)
    requires Inv(s) && Enabled(s, a)
    ensures Inv(Next(s, a))
  {
    StepKeepsQueue(s, a);
    StepKeepsPending(s, a);
    StepKeepsAccepted(s, a);
    StepKeepsStored(s, a);
    StepKeepsObserved(s, a);
  }

  lemma StepKeepsQueue(s: State, a: Action)
    requires QueueInv(s) && Enabled(s, a)
    ensures QueueInv(Next(s, a))
  {
    if a.Take? || a.Release? || a.Fire? || a.Submit? {
      QueueStepKeepsQueue(s, a);
    }
  }

  lemma QueueStepKeepsQueue(s: State, a: Action)
    requires QueueInv(s) && Enabled(s, a) && (a.Take? || a.Release? || a.Fire? || a.Submit?)
    ensures QueueInv(Next(s, a))
  {
  }

  lemma StepKeepsPending(s: State, a: Action)
    requires PendingInv(s) && Enabled(s, a)
    ensures PendingInv(Next(s, a))
  {
    if a.Start? || a.Submit? || a.Fire? {
      OthersKeepPending(s, a);
    } else {
      WorkerKeepsPending(s, a);
    }
  }

  lemma OthersKeepPending(s: State, a: Action)
    requires PendingInv(s) && Enabled(s, a) && (a.Start? || a.Submit? || a.Fire?)
    ensures PendingInv(Next(s, a))
  {
  }

  lemma WorkerKeepsPending(s: State, a: Action)
    requires PendingInv(s) && Enabled(s, a) && !(a.Start? || a.Submit? || a.Fire?)
    ensures PendingInv(Next(s, a))
  {
    if a.Take? || a.Load? || a.Write? {
      ServingKeepsPending(s, a);
    } else if a.Conclude? {
      ConcludingKeepsPending(s);
    } else {
      LeavingKeepsPending(s, a);
    }
  }

  lemma ConcludingKeepsPending(s: State)
    requires PendingInv(s) && s.worker.Answered?
    ensures PendingInv(Next(s, Conclude))
  {
  }

  lemma ServingKeepsPending(s: State, a: Action)
    requires PendingInv(s) && Enabled(s, a) && (a.Take? || a.Load? || a.Write?)
    ensures PendingInv(Next(s, a))
  {
  }

  lemma LeavingKeepsPending(s: State, a: Action)
    requires PendingInv(s) && Enabled(s, a) && (a.Observe? || a.Release?)
    ensures PendingInv(Next(s, a))
  {
  }

  lemma StepKeepsAccepted(s: State, a: Action)
    requires PendingInv(s) && AcceptedInv(s) && Enabled(s, a)
    ensures AcceptedInv(Next(s, a))
  {
    var t := Next(s, a);
    forall d | d in t.accepted ensures Settled(t, d.Key()) {
      assert d in s.accepted ==> Settled(s, d.Key());
    }
  }

  lemma StepKeepsStored(s: State, a: Action)
    requires PendingInv(s) && StoredInv(s) && Enabled(s, a)
    ensures StoredInv(Next(s, a))
  {
    if a.Write? {
      AddingKeepsStored(s, s.worker.report, Next(s, a));
    } else {
      OnlyWritesStore(s, a);
      SameStoreKeepsStored(s, Next(s, a));
    }
  }

  lemma OnlyWritesStore(s: State, a: Action)
    requires Enabled(s, a) && !a.Write?
    ensures Next(s, a).found == s.found && Next(s, a).stored == s.stored && s.accepted <= Next(s, a).accepted
  {
  }

  lemma SameStoreKeepsStored(s: State, t: State)
    requires StoredInv(s) && t.found == s.found && t.stored == s.stored && s.accepted <= t.accepted
    ensures StoredInv(t)
  {
  }

  lemma AddingKeepsStored(s: State, d: Delivery, t: State)
    requires StoredInv(s) && d in s.accepted && t.found == s.found && t.accepted == s.accepted
    requires t.stored == s.stored || (d.Key() !in s.stored && t.stored == s.stored[d.Key() := d])
    ensures StoredInv(t)
  {
  }

  lemma StepKeepsObserved(s: State, a: Action)
    requires PendingInv(s) && StoredInv(s) && ObservedInv(s) && Enabled(s, a)
    ensures ObservedInv(Next(s, a))
  {
    if a.Write? {
      WriteKeepsObserved(s, a.fault);
    } else if a.Observe? {
      ObserveKeepsObserved(s);
    } else {
      OthersKeepObserved(s, a);
    }
  }

  lemma WriteKeepsObserved(s: State, fault: Fault)
    requires PendingInv(s) && StoredInv(s) && ObservedInv(s) && s.worker.Loaded?
    ensures ObservedInv(Next(s, Write(fault)))
  {
  }

  lemma ObserveKeepsObserved(s: State)
    requires ObservedInv(s) && s.worker.Observing?
    ensures ObservedInv(Next(s, Observe))
  {
  }

  lemma OthersKeepObserved(s: State, a: Action)
    requires ObservedInv(s) && Enabled(s, a) && !a.Write? && !a.Observe?
    ensures ObservedInv(Next(s, a))
  {
  }

  /**
   * In every interleaving of submitters, worker and retry timers nothing accepted is lost, even when a
   * submission for a key races with the worker finishing it; and no report is announced twice.
   */
  lemma {:induction false} NothingIsLost(actions: seq<Action>, s: State)
    requires Reaches(actions, s)
    ensures Inv(s)
    decreases |actions|
  {
    if actions == [] {
    } else {
      var front, last := actions[..|actions| - 1], actions[|actions| - 1];
      var p :| Reaches(front, p) && Steps(p, last, s);
      NothingIsLost(front, p);
      StepKeepsInv(p, last);
    }
  }

  /** A step of the worker or of a timer; a write arrives and is answered, be it by a refusal. */
  predicate Quiet(a: Action) {
    !a.Start? && !a.Submit? && (a.Write? ==> a.fault.NoFault? || a.fault.Refused?)
  }

  /** Of the writes, exactly those of the reports that the API server finds invalid are refused. */
  predicate AnsweredBy(refuses: Delivery -> bool, s: State, a: Action) {
    a.Write? && s.worker.Loaded? ==> (a.fault.Refused? <==> refuses(s.worker.report))
  }

  /** While a report is pending the publisher is never stuck: the worker can move or a retry is due. */
  lemma PendingWorkCanProceed(actions: seq<Action>, s: State)
    requires Reaches(actions, s) && s.running && s.pending != map[]
    ensures exists a :: Enabled(s, a) && Quiet(a)
  {
    NothingIsLost(actions, s);
    var a := NeverStuck(s, _ => false);
  }

  /** Whatever reports the API server refuses. */
  lemma NeverStuck(s: State, refuses: Delivery -> bool) returns (a: Action)
    requires Inv(s) && s.running && s.pending != map[]
    ensures Enabled(s, a) && Quiet(a) && AnsweredBy(refuses, s, a)
  {
    var k :| k in s.pending;
    match s.worker
    case Idle =>
      assert k in s.delayed || k in s.queue.ready;
      a := if k in s.delayed then Fire(k) else Take;
    case Holding(_) => a := Load;
    case Loaded(_, report) => a := Write(if refuses(report) then Refused else NoFault);
    case Answered(_, _, _) => a := Conclude;
    case Observing(_) => a := Observe;
    case Releasing(_) => a := Release;
  }

  // ---- Delivery ends ----

  /** How many steps the worker still has to take before it is idle, with a retry it is about to order. */
  function WorkerSteps(w: Worker): nat {
    match w
    case Idle => 0
    case Releasing(_) => 1
    case Observing(_) => 2
    case Answered(_, _, reply) => if reply.TransientError? then 10 else 3
    case Loaded(_, _) => 4
    case Holding(_) => 5
  }

  /** An upper bound on the steps that remain when every write is answered and nothing new is submitted. */
  function StepsLeft(s: State): nat {
    7 * |s.queue.dirty| + 8 * |s.delayed| + WorkerSteps(s.worker)
  }

  lemma AddSize<T>(s: set<T>, x: T)
    ensures |s| <= |s + {x}| <= |s| + 1
    ensures x in s ==> |s - {x}| == |s| - 1
  {
    if x in s {
      assert s + {x} == s;
    }
  }

  lemma QuietStepsLessen(s: State, a: Action)
    requires QueueInv(s) && Enabled(s, a) && Quiet(a)
    ensures StepsLeft(Next(s, a)) < StepsLeft(s)
  {
    if a.Take? {
      TakingLessens(s);
    } else if a.Fire? {
      FiringLessens(s, a.key);
    } else if a.Conclude? {
      ConcludingLessens(s);
    } else {
      ServingLessens(s, a);
    }
  }

  lemma ConcludingLessens(s: State)
    requires s.worker.Answered?
    ensures StepsLeft(Next(s, Conclude)) < StepsLeft(s)
  {
    AddSize(s.delayed, s.worker.key);
  }

  lemma TakingLessens(s: State)
    requires QueueInv(s) && Enabled(s, Take)
    ensures StepsLeft(Next(s, Take)) < StepsLeft(s)
  {
    AddSize(s.queue.dirty, s.queue.ready[0]);
  }

  lemma FiringLessens(s: State, k: string)
    requires k in s.delayed
    ensures StepsLeft(Next(s, Fire(k))) < StepsLeft(s)
  {
    AddSize(s.delayed, k);
    AddSize(s.queue.dirty, k);
  }

  lemma ServingLessens(s: State, a: Action)
    requires Enabled(s, a) && (a.Load? || a.Observe? || a.Release? || (a.Write? && Quiet(a)))
    ensures StepsLeft(Next(s, a)) < StepsLeft(s)
  {
  }

  /** t follows from s by the given steps, all quiet. */
  ghost predicate QuietRun(s: State, steps: seq<Action>, t: State)
    decreases |steps|
  {
    if steps == [] then s == t
    else Enabled(s, steps[0]) && Quiet(steps[0]) && QuietRun(Next(s, steps[0]), steps[1..], t)
  }

  lemma QuietStepsAccept(s: State, a: Action)
    requires Enabled(s, a) && Quiet(a)
    ensures Next(s, a).running == s.running && Next(s, a).accepted == s.accepted
  {
  }

  /** However the worker and the timers take turns, they come to rest within the bound. */
  lemma {:induction false} QuietRunsAreShort(s: State, steps: seq<Action>, t: State)
    requires Inv(s) && QuietRun(s, steps, t)
    ensures |steps| + StepsLeft(t) <= StepsLeft(s)
    ensures Inv(t) && t.running == s.running && t.accepted == s.accepted
    decreases |steps|
  {
    if steps == [] {
    } else {
      StepKeepsInv(s, steps[0]);
      QuietStepsLessen(s, steps[0]);
      QuietStepsAccept(s, steps[0]);
      QuietRunsAreShort(Next(s, steps[0]), steps[1..], t);
    }
  }

  /** The run from s in which refusals follow the policy. */
  ghost predicate RunAnsweredBy(refuses: Delivery -> bool, s: State, steps: seq<Action>)
    decreases |steps|
  {
    steps != [] ==>
      Enabled(s, steps[0]) && AnsweredBy(refuses, s, steps[0])
      && RunAnsweredBy(refuses, Next(s, steps[0]), steps[1..])
  }

  /** And they can come to rest with nothing pending, whatever reports are refused. */
  lemma {:induction false} RestIsReachable(s: State, refuses: Delivery -> bool)
    returns (steps: seq<Action>, t: State)
    requires Inv(s) && s.running
    ensures QuietRun(s, steps, t) && RunAnsweredBy(refuses, s, steps) && t.pending == map[]
    decreases StepsLeft(s)
  {
    if s.pending == map[] {
      steps, t := [], s;
    } else {
      var a := NeverStuck(s, refuses);
      StepKeepsInv(s, a);
      QuietStepsLessen(s, a);
      steps, t := RestIsReachable(Next(s, a), refuses);
      steps := [a] + steps;
    }
  }

  /** The worker has no answer yet, or none that was given against the policy. */
  predicate AnswerFits(w: Worker, k: string, refused: bool) {
    w.Answered? && w.key == k ==>
      if refused then w.reply.PermanentError? || w.reply.TransientError? else !w.reply.PermanentError?
  }

  /** All reports ever accepted for k are judged alike. */
  ghost predicate Judged(refuses: Delivery -> bool, accepted: set<Delivery>, k: string, refused: bool) {
    forall d :: d in accepted && d.Key() == k ==> refuses(d) == refused
  }

  /** A report that is still to be written will be stored, or refused, as the policy says. */
  ghost predicate Bound(s: State, k: string, refused: bool) {
    AnswerFits(s.worker, k, refused) && (k in s.pending || (if refused then k in s.refused else k in s.stored))
  }

  lemma StepKeepsBound(refuses: Delivery -> bool, s: State, a: Action, k: string, refused: bool)
    requires PendingInv(s) && AcceptedInv(s) && Enabled(s, a) && Quiet(a) && AnsweredBy(refuses, s, a)
    requires Judged(refuses, s.accepted, k, refused) && Bound(s, k, refused)
    ensures Bound(Next(s, a), k, refused)
    ensures refused ==> (k in Next(s, a).stored <==> k in s.stored)
    ensures !refused ==> (k in Next(s, a).refused <==> k in s.refused)
  {
  }

  /**
   * A run that leaves nothing pending has delivered the report k stood for: it is stored if the API server
   * finds it valid, and refused without being stored if not.
   */
  lemma {:induction false} ValidityDecides(
    refuses: Delivery -> bool, s: State, steps: seq<Action>, t: State, k: string, refused: bool)
    requires Inv(s) && QuietRun(s, steps, t) && RunAnsweredBy(refuses, s, steps) && t.pending == map[]
    requires Judged(refuses, s.accepted, k, refused) && Bound(s, k, refused)
    ensures refused ==> k in t.refused && (k in t.stored <==> k in s.stored)
    ensures !refused ==> k in t.stored && (k in t.refused <==> k in s.refused)
    decreases |steps|
  {
    if steps == [] {
    } else {
      StepKeepsInv(s, steps[0]);
      QuietStepsAccept(s, steps[0]);
      StepKeepsBound(refuses, s, steps[0], k, refused);
      ValidityDecides(refuses, Next(s, steps[0]), steps[1..], t, k, refused);
    }
  }

  /**
   * A quiet run that can go on no further has delivered everything, and none is longer than the bound:
   * when writes are answered and nothing new is submitted, each accepted report is soon stored or refused.
   */
  lemma EverythingIsDelivered(actions: seq<Action>, s: State, steps: seq<Action>, t: State)
    requires Reaches(actions, s) && s.running && QuietRun(s, steps, t)
    ensures |steps| <= StepsLeft(s)
    ensures (forall a :: Enabled(t, a) ==> !Quiet(a)) ==>
      t.pending == map[] && forall d :: d in s.accepted ==> d.Key() in t.stored || d.Key() in t.refused
  {
    NothingIsLost(actions, s);
    QuietRunsAreShort(s, steps, t);
    if t.pending != map[] {
      var a := NeverStuck(t, _ => false);
      assert Enabled(t, a) && Quiet(a);
    }
    forall d | d in s.accepted && t.pending == map[] ensures d.Key() in t.stored || d.Key() in t.refused {
      assert Settled(t, d.Key());
    }
  }

  // ---- Contents ----

  /** Every key is always submitted with the same report, as with names derived from the content. */
  ghost predicate NamesFixContents(accepted: set<Delivery>) {
    forall d, e :: d in accepted && e in accepted && d.Key() == e.Key() ==> d == e
  }

  /** When names fix contents, not only the key but the very report is stored, refused or pending. */
  lemma ContentsAreKept(actions: seq<Action>, s: State, d: Delivery)
    requires Reaches(actions, s) && NamesFixContents(s.accepted + s.found.Values) && d in s.accepted
    ensures d.Key() in s.refused
            || (d.Key() in s.stored && s.stored[d.Key()] == d)
            || (d.Key() in s.pending && s.pending[d.Key()] == d)
  {
    NothingIsLost(actions, s);
    var k := d.Key();
    assert Settled(s, k);
    if k in s.found {
      assert s.found[k] in s.found.Values;
    }
  }

  /** Everything accepted was delivered: nothing is pending any more, and nothing was refused. */
  ghost predicate AllDelivered(s: State) {
    forall d :: d in s.accepted ==> d.Key() !in s.refused && d.Key() !in s.pending
  }

  /** Once everything is delivered, each accepted report is stored as itself if and only if names fix contents. */
  lemma ContentsKeptIff(actions: seq<Action>, s: State)
    requires Reaches(actions, s) && AllDelivered(s)
    ensures (forall d :: d in s.accepted ==> d.Key() in s.stored && s.stored[d.Key()] == d)
            <==> NamesFixContents(s.accepted + s.found.Values)
  {
    NothingIsLost(actions, s);
    if forall d :: d in s.accepted ==> d.Key() in s.stored && s.stored[d.Key()] == d {
      StoredOnce(s);
    }
    if NamesFixContents(s.accepted + s.found.Values) {
      forall d | d in s.accepted ensures d.Key() in s.stored && s.stored[d.Key()] == d {
        ContentsAreKept(actions, s, d);
      }
    }
  }

  lemma StoredOnce(s: State)
    requires StoredInv(s) && forall d :: d in s.accepted ==> d.Key() in s.stored && s.stored[d.Key()] == d
    ensures NamesFixContents(s.accepted + s.found.Values)
  {
    forall d | d in s.found.Values ensures d.Key() in s.stored && s.stored[d.Key()] == d {
      var k :| k in s.found && s.found[k] == d;
    }
  }

  lemma Do(actions: seq<Action>, p: State, a: Action) returns (longer: seq<Action>, s: State)
    requires Reaches(actions, p) && Enabled(p, a)
    ensures Reaches(longer, s) && s == Next(p, a)
  {
    longer, s := actions + [a], Next(p, a);
    assert longer[..|actions|] == actions;
    assert Steps(p, a, s);
  }

  /** Otherwise the race is real: a second report under the same name, submitted before finish, is dropped. */
  lemma RaceDropsSecondContent() returns (actions: seq<Action>, s: State)
    ensures Reaches(actions, s)
    ensures var second := Delivery("ns", "r", "2");
      second in s.accepted && second.Key() !in s.refused && second.Key() !in s.pending
      && second.Key() in s.stored && s.stored[second.Key()] != second
  {
    var first, second := Delivery("ns", "r", "1"), Delivery("ns", "r", "2");
    assert first.Key() == second.Key();
    actions, s := [], Init(map[]);
    actions, s := Do(actions, s, Start);
    actions, s := Do(actions, s, Submit(first));
    actions, s := Do(actions, s, Take);
    actions, s := Do(actions, s, Load);
    actions, s := Do(actions, s, Write(NoFault));
    actions, s := Do(actions, s, Submit(second));
    actions, s := Do(actions, s, Conclude);
  }

  // ---- The publisher object ----

  class KubeReportSink {
    var stored: map<string, Delivery>

    constructor ()
      ensures stored == map[]
    {
      stored := map[];
    }

    method WriteReport(report: Delivery, fault: Fault) returns (reply: Reply)
      modifies this
      ensures reply == ReplyTo(old(stored), report.Key(), fault)
      ensures stored == StoredAfter(old(stored), report, fault)
      ensures fault.Refused? ==> reply.PermanentError? && stored == old(stored)
      ensures fault.RequestLost? ==> reply.TransientError? && stored == old(stored)
      ensures fault.AnswerLost? ==> reply.TransientError?
      ensures fault.NoFault? ==> reply == if report.Key() in old(stored) then Exists else Created
      ensures fault.NoFault? || fault.AnswerLost? ==>
        stored == if report.Key() in old(stored) then old(stored) else old(stored)[report.Key() := report]
    {
      if fault.Refused? { return PermanentError; }
      if fault.RequestLost? { return TransientError; }
      var created := report.Key() !in stored;
      if created {
        stored := stored[report.Key() := report];
      }
      if fault.AnswerLost? { return TransientError; }
      return if created then Created else Exists;
    }
  }

  class ReportPublisher {
    const sink: KubeReportSink
    var running: bool
    var pending: map<string, Delivery>
    var queue: WorkQueue.Queue<string>
    var delayed: set<string>
    ghost const found: map<string, Delivery>
    ghost var refused: set<string>
    ghost var created: set<string>
    ghost var observed: seq<string>
    ghost var accepted: set<Delivery>

    constructor (sink: KubeReportSink)
      requires FiledByKey(sink.stored)
      ensures Abs() == Init(sink.stored) && Inv(Abs()) && this.sink == sink
    {
      this.sink := sink;
      found := sink.stored;
      running, pending, queue, delayed := false, map[], WorkQueue.Queue([], {}, {}), {};
      refused, created, observed, accepted := {}, {}, [], {};
    }

    /** The state between two rounds of the worker. */
    ghost function Abs(): State
      reads this, sink
    {
      State(running, pending, queue, delayed, Idle, found, sink.stored, refused, created, observed, accepted)
    }

    method Submit(report: Delivery) returns (ok: bool)
      requires Inv(Abs())
      modifies this
      ensures Inv(Abs()) && Abs() == Next(old(Abs()), Action.Submit(report))
      ensures ok <==> old(running) && report.namespace != "" && report.name != ""
      ensures ok ==> pending == old(pending)[report.Key() := report] && report.Key() in queue.dirty
      ensures ok ==> accepted == old(accepted) + {report}
      ensures !ok ==> Abs() == old(Abs())
    {
      StepKeepsInv(Abs(), Action.Submit(report));
      if report.namespace == "" || report.name == "" { return false; }
      var key := report.Key();
      if !running { return false; }
      pending := pending[key := report];
      queue := queue.Add(key);
      accepted := accepted + {report};
      return true;
    }

    /** Starts the worker; starting again changes nothing. */
    method Start()
      requires Inv(Abs())
      modifies this`running
      ensures Inv(Abs()) && running && Abs() == Next(old(Abs()), Action.Start)
      ensures Abs() == old(Abs()).(running := true)
    {
      StepKeepsInv(Abs(), Action.Start);
      running := true;
    }

    /** The retry time of a key has come. */
    method Fire(key: string)
      requires Inv(Abs()) && key in delayed
      modifies this`delayed, this`queue
      ensures Inv(Abs()) && Abs() == Next(old(Abs()), Action.Fire(key))
      ensures delayed == old(delayed) - {key} && key in queue.dirty
    {
      StepKeepsInv(Abs(), Action.Fire(key));
      delayed := delayed - {key};
      queue := queue.Add(key);
    }

    /**
     * One round of the worker without interruption is a run of the machine's steps. It stores, drops or
     * delays the report of the oldest key, and only a key without a report changes nothing.
     */
    method ProcessNext(fault: Fault)
      requires Inv(Abs()) && Enabled(Abs(), Take)
      modifies this, sink
      ensures Inv(Abs()) && Abs() == Round(old(Abs()), fault)
      ensures var k := old(queue.ready[0]);
        && queue.ready == old(queue.ready[1..]) && k !in queue.dirty
        && Abs() == (if k in old(pending) then Delivered(old(Abs()), k, fault) else old(Abs())).(queue := queue)
    {
      RoundKeepsInv(Abs(), fault);
      RoundOutcome(Abs(), fault);
      DeliveryLeavesQueue(Abs(), fault, queue.Get());
      var key := queue.ready[0];
      queue := queue.Get();
      if key in pending {
        Deliver(key, fault);
      }
      queue := queue.Done(key);
    }

    /** Writes one report and acts on the answer. */
    method Deliver(key: string, fault: Fault)
      requires key in pending && pending[key].Key() == key
      modifies this, sink
      ensures Abs() == Delivered(old(Abs()), key, fault)
    {
      var reply := sink.WriteReport(pending[key], fault);
      match reply {
        case PermanentError =>
          Finish(key);
          refused := refused + {key};
        case TransientError =>
          delayed := delayed + {key};
        case Exists =>
          Finish(key);
        case Created =>
          Finish(key);
          created := created + {key};
          observed := observed + [key];
      }
    }

    method Finish(key: string)
      modifies this`pending
      ensures pending == old(pending) - {key}
    {
      pending := pending - {key};
    }
  }

  /** A first delivery whose request is lost is retried and then succeeds. */
  method LostThenStored(report: Delivery) returns (p: ReportPublisher)
    requires report.namespace != "" && report.name != ""
    ensures fresh(p) && Inv(p.Abs()) && p.pending == map[] && p.delayed == {}
    ensures p.sink.stored == map[report.Key() := report] && p.observed == [report.Key()]
  {
    p := Submitted(report);
    FirstRound(p.Abs(), report);
    p.ProcessNext(RequestLost);
    Retry(p, report);
  }

  method Submitted(report: Delivery) returns (p: ReportPublisher)
    requires report.namespace != "" && report.name != ""
    ensures fresh(p) && fresh(p.sink) && Inv(p.Abs()) && OnlyPending(p.Abs(), report)
  {
    var sink := new KubeReportSink();
    p := new ReportPublisher(sink);
    p.Start();
    var ok := p.Submit(report);
  }

  method Retry(p: ReportPublisher, report: Delivery)
    requires Inv(p.Abs()) && OnlyDelayed(p.Abs(), report)
    modifies p, p.sink
    ensures Inv(p.Abs()) && p.pending == map[] && p.delayed == {}
    ensures p.sink.stored == map[report.Key() := report] && p.observed == [report.Key()]
  {
    p.Fire(report.Key());
    FirstRound(p.Abs(), report);
    p.ProcessNext(NoFault);
  }

  ghost predicate OnlyDelayed(s: State, d: Delivery) {
    && s.running && s.worker.Idle? && QueueInv(s) && s.queue.dirty == {} && s.delayed == {d.Key()}
    && s.pending == map[d.Key() := d] && s.stored == map[] && s.observed == []
  }

  /** One report under way, and nothing else. */
  ghost predicate OnlyPending(s: State, d: Delivery) {
    && s.running && s.worker.Idle? && QueueInv(s) && s.queue.dirty == {d.Key()} && s.delayed == {}
    && s.pending == map[d.Key() := d] && s.stored == map[] && s.observed == []
  }

  lemma FirstRound(s: State, d: Delivery)
    requires OnlyPending(s, d)
    ensures Enabled(s, Take)
    ensures QueueInv(Round(s, RequestLost)) && OnlyDelayed(Round(s, RequestLost), d)
    ensures var t := Round(s, NoFault);
      t.pending == map[] && t.delayed == {} && t.stored == map[d.Key() := d] && t.observed == [d.Key()]
  {
    OneKeyReady(s, d.Key());
    RoundOutcome(s, RequestLost);
    RoundOutcome(s, NoFault);
  }

  lemma OneKeyReady(s: State, k: string)
    requires QueueInv(s) && s.worker.Idle? && s.queue.dirty == {k}
    ensures s.queue.ready == [k]
  {
    Base.OnlyElement(s.queue.ready, k);
  }

  /** The worker runs from taking a key to releasing it. */
  function Round(s: State, fault: Fault): State
    requires Enabled(s, Take)
  {
    var s2 := Next(Next(s, Take), Load);
    if s2.worker.Releasing? then Next(s2, Release) else Next(Written(s2, fault), Release)
  }

  /**
   * What becomes of the pending report of k, fault by fault. A refused report is dropped at once and nothing
   * else happens; without an answer it stays pending until its retry, though it may be stored already; else it
   * is done, and announced if it was not there before.
   */
  function Delivered(s: State, k: string, fault: Fault): State
    requires k in s.pending
  {
    match fault
    case Refused => s.(pending := s.pending - {k}, refused := s.refused + {k})
    case RequestLost => s.(delayed := s.delayed + {k})
    case AnswerLost =>
      s.(delayed := s.delayed + {k}, stored := if k in s.stored then s.stored else s.stored[k := s.pending[k]])
    case NoFault =>
      if k in s.stored then s.(pending := s.pending - {k})
      else s.(pending := s.pending - {k}, stored := s.stored[k := s.pending[k]], created := s.created + {k},
              observed := s.observed + [k])
  }

  /** A round in one piece: the oldest key leaves the queue, and its report, if there is one, is delivered. */
  lemma RoundOutcome(s: State, fault: Fault)
    requires QueueInv(s) && Enabled(s, Take) && s.worker.Idle? && FiledByKey(s.pending)
    ensures var (k, t) := (s.queue.ready[0], Round(s, fault));
      && t == (if k in s.pending then Delivered(s, k, fault) else s).(queue := t.queue)
      && t.queue == s.queue.Get().Done(k) && t.queue.ready == s.queue.ready[1..] && k !in t.queue.dirty
  {
    var k, taken := s.queue.ready[0], Next(s, Take);
    if k in s.pending {
      WriteOutcome(Next(taken, Load), fault);
    }
  }

  lemma DeliveryLeavesQueue(s: State, fault: Fault, q: WorkQueue.Queue<string>)
    ensures forall k :: k in s.pending ==> Delivered(s.(queue := q), k, fault) == Delivered(s, k, fault).(queue := q)
  {
  }

  /** From the write to its conclusion. */
  function Written(s: State, fault: Fault): State
    requires s.worker.Loaded?
  {
    var t := Next(Next(s, Write(fault)), Conclude);
    if t.worker.Observing? then Next(t, Observe) else t
  }

  lemma WriteOutcome(s: State, fault: Fault)
    requires s.worker.Loaded? && var k := s.worker.key;
      k in s.pending && s.worker.report == s.pending[k] && s.pending[k].Key() == k
    ensures Written(s, fault) == Delivered(s, s.worker.key, fault).(worker := Releasing(s.worker.key))
  {
  }

  lemma RoundKeepsInv(s: State, fault: Fault)
    requires Inv(s) && Enabled(s, Take)
    ensures Inv(Round(s, fault))
    ensures s.queue.ready[0] in s.pending ==> s.pending[s.queue.ready[0]].Key() == s.queue.ready[0]
  {
    StepKeepsInv(s, Take);
    var s1 := Next(s, Take);
    StepKeepsInv(s1, Load);
    var s2 := Next(s1, Load);
    if s2.worker.Releasing? {
      StepKeepsInv(s2, Release);
    } else {
      StepKeepsInv(s2, Write(fault));
      var s3 := Next(s2, Write(fault));
      StepKeepsInv(s3, Conclude);
      var s4 := Next(s3, Conclude);
      if s4.worker.Observing? {
        StepKeepsInv(s4, Observe);
        StepKeepsInv(Next(s4, Observe), Release);
      } else {
        StepKeepsInv(s4, Release);
      }
    }
  }
}
