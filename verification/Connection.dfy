/**
 One plugin connection inside the core: a receiver thread and two processor threads that share two queues, two mutexes
 and two auto-reset events. Each lock, unlock, queue operation, event operation and flag update is a step of its own.
 */
module Connection {
  import opened Common

  datatype Kind = Registration | Subscribe | Config | Status | EventLog | Other

  /** A parsed message; `id` stands for its address, distinct for every parse. */
  datatype Msg = Msg(id: nat, kind: Kind)

  datatype Lane = Fast | Slow

  /** Status and event log messages go to the slow processor, everything else to the fast one. */
  function LaneOf(m: Msg): Lane
  {
    if m.kind.Status? || m.kind.EventLog? then Slow else Fast
  }

  /** The messages of one lane, in order of arrival. */
  function OfLane(ms: seq<Msg>, l: Lane): seq<Msg>
  {
    if ms == [] then []
    else if LaneOf(ms[|ms| - 1]) == l then OfLane(ms[..|ms| - 1], l) + [ms[|ms| - 1]]
    else OfLane(ms[..|ms| - 1], l)
  }

  datatype Holder = Nobody | ByReceiver | ByProcessor

  datatype ProcPc =
    | Top        // next: test interruption_requested() and messageWaiting
    | Wait       // next: WaitOne()
    | Lock       // next: lock the queue's mutex
    | Front      // next: read front() or find the queue empty
    | Pop        // next: pop()
    | Flag       // next: messageWaiting = !empty()
    | Unlock     // next: unlock the mutex, then test msg == NULL
    | Handle     // next: the handler runs and returns
    | Destroy    // next: ivpMsg_destroy(msg)
    | Exited

  datatype Side = Side(
    queue: seq<Msg>, mutex: Holder, event: bool,
    pc: ProcPc, interrupted: bool, messageWaiting: bool, msg: Option<Msg>,
    processed: seq<Msg>, destroyed: seq<Msg>)

  datatype RxPc =
    | Reading                  // in recv(), or between two framed messages
    | Parsed(m: Msg)           // next: lock the mutex of its lane
    | Pushing(m: Msg)          // next: push
    | Pushed(lane: Lane)       // next: unlock
    | Signal(lane: Lane)       // next: Set()
    | InterruptFast | InterruptSlow | SetFast | SetSlow | JoinFast | JoinSlow
    | Deleted

  datatype State = State(rx: RxPc, fast: Side, slow: Side, arrived: seq<Msg>)

  datatype Action =
    | Arrive(kind: Kind)   // a framed message arrives and parses
    | Garbage              // a framed message arrives and does not parse: an error is sent back, nothing is queued
    | Close                // recv() returns 0 or an error
    | Receiver             // the receiver thread takes its next step
    | Processor(lane: Lane)

  function Lookup(s: State, l: Lane): Side { if l.Fast? then s.fast else s.slow }

  function Put(s: State, l: Lane, p: Side): State { if l.Fast? then s.(fast := p) else s.(slow := p) }

  // ---------- the processor loop ----------

  predicate ProcReady(p: Side)
  {
    !p.pc.Exited? && (p.pc.Wait? ==> p.event) && (p.pc.Lock? ==> p.mutex.Nobody?)
  }

  function ProcStep(p: Side): Side
    requires ProcReady(p)
  {
    match p.pc
    case Top => p.(pc := if p.interrupted then Exited else if p.messageWaiting then Lock else Wait)
    case Wait => p.(event := false, pc := Lock)
    case Lock => p.(mutex := ByProcessor, pc := Front)
    case Front => if p.queue == [] then p.(msg := None, pc := Unlock) else p.(msg := Some(p.queue[0]), pc := Pop)
    case Pop => p.(queue := if p.queue == [] then [] else p.queue[1..], pc := Flag)
    case Flag => p.(messageWaiting := p.queue != [], pc := Unlock)
    case Unlock => p.(mutex := Nobody, pc := if p.msg.None? then Top else Handle)
    case Handle => p.(processed := if p.msg.Some? then p.processed + [p.msg.value] else p.processed, pc := Destroy)
    case Destroy => p.(destroyed := if p.msg.Some? then p.destroyed + [p.msg.value] else p.destroyed, pc := Top)
    case Exited => p
  }

  // ---------- the receiver loop ----------

  predicate RxReady(s: State)
  {
    match s.rx
    case Reading => false
    case Parsed(m) => Lookup(s, LaneOf(m)).mutex.Nobody?
    case JoinFast => s.fast.pc.Exited?
    case JoinSlow => s.slow.pc.Exited?
    case Deleted => false
    case _ => true
  }

  function RxNext(rx: RxPc): RxPc
  {
    match rx
    case Reading => Reading
    case Parsed(m) => Pushing(m)
    case Pushing(m) => Pushed(LaneOf(m))
    case Pushed(l) => Signal(l)
    case Signal(l) => Reading
    case InterruptFast => InterruptSlow
    case InterruptSlow => SetFast
    case SetFast => SetSlow
    case SetSlow => JoinFast
    case JoinFast => JoinSlow
    case JoinSlow => Deleted
    case Deleted => Deleted
  }

  /** What the receiver's next step does to one lane. */
  function RxOnLane(p: Side, rx: RxPc, l: Lane): Side
  {
    match rx
    case Parsed(m) => if LaneOf(m) == l then p.(mutex := ByReceiver) else p
    case Pushing(m) => if LaneOf(m) == l then p.(queue := p.queue + [m]) else p
    case Pushed(k) => if k == l then p.(mutex := Nobody) else p
    case Signal(k) => if k == l then p.(event := true) else p
    case InterruptFast => if l.Fast? then p.(interrupted := true) else p
    case InterruptSlow => if l.Slow? then p.(interrupted := true) else p
    case SetFast => if l.Fast? then p.(event := true) else p
    case SetSlow => if l.Slow? then p.(event := true) else p
    case _ => p
  }

  predicate Enabled(s: State, a: Action)
  {
    match a
    case Arrive(_) => s.rx.Reading?
    case Garbage => s.rx.Reading?
    case Close => s.rx.Reading?
    case Receiver => RxReady(s)
    case Processor(l) => ProcReady(Lookup(s, l))
  }

  function Step(s: State, a: Action): State
    requires Enabled(s, a)
  {
    match a
    case Arrive(k) => s.(rx := Parsed(Msg(|s.arrived|, k)), arrived := s.arrived + [Msg(|s.arrived|, k)])
    case Garbage => s
    case Close => s.(rx := InterruptFast)
    case Receiver => State(RxNext(s.rx), RxOnLane(s.fast, s.rx, Fast), RxOnLane(s.slow, s.rx, Slow), s.arrived)
    case Processor(l) => Put(s, l, ProcStep(Lookup(s, l)))
  }

  const FRESH := Side([], Nobody, false, Top, false, false, None, [], [])

  ghost predicate Init(s: State)
  {
    s == State(Reading, FRESH, FRESH, [])
  }

  ghost predicate Run(s: State, acts: seq<Action>)
    decreases |acts|
  {
    acts == [] || (Enabled(s, acts[0]) && Run(Step(s, acts[0]), acts[1..]))
  }

  ghost function Exec(s: State, acts: seq<Action>): State
    requires Run(s, acts)
    decreases |acts|
  {
    if acts == [] then s else Exec(Step(s, acts[0]), acts[1..])
  }
}
