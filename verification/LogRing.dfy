/** The logging ring of dsme/logging.c: the main thread queues messages, a
    worker thread outputs them. The two threads share a ring of 128 slots, two
    wrapping 32-bit counters and an eventfd counter. Every access to a shared
    variable is one step of the state machine below; a run is any interleaving
    of the steps of the two threads. */
module LogRing {

  const SLOTS: nat := 128
  const RESUME: nat := SLOTS * 7 / 8
  const WRAP: nat := 0x1_0000_0000

  /** What one slot can hold. `Message(n)` is the text passed to the n-th call
      of dsme_log_queue; `Lost` is the overflow record, with the 32-bit number
      it prints and the number of calls really skipped. */
  datatype Entry = Message(call: nat) | Lost(printed: nat, actual: nat)

  /** A slot whose text is being formatted holds no entry. */
  datatype Slot = Torn | Holds(entry: Entry)

  /** Where the main thread is. `next` is the message that follows an overflow
      record within the same call of dsme_log_queue. */
  datatype Producer =
    | Idle
    | Start(entry: Entry, next: seq<Entry>)
    | Filling(entry: Entry, next: seq<Entry>)
    | Filled(entry: Entry, next: seq<Entry>)
    | Published(next: seq<Entry>)
    | Stopping
    | Flushing(at: nat, first: nat)
    | Closed(first: nat)

  /** Where the worker is; `cnt` is its local copy of the eventfd count. */
  datatype Worker =
    | Reading
    | Woken(cnt: nat)
    | Looping(cnt: nat)
    | Popping(cnt: nat)
    | Popped(cnt: nat)
    | Counted(cnt: nat)
    | OutOfSync
    | Exited

  /** The shared variables, the main thread's static variables, both program
      counters and the history of the run. */
  datatype Ring = Ring(
    slots: seq<Slot>, wr: nat, rd: nat, tokens: nat, enabled: bool,
    overflow: bool, skipped: nat,
    producer: Producer, worker: Worker,
    calls: nat, missed: nat, accepted: seq<Entry>, consumed: nat,
    workerOut: seq<Slot>, flushOut: seq<Slot>)

  predicate Initial(s: Ring) {
    s == Ring(seq(SLOTS, _ => Torn), 0, 0, 0, true, false, 0, Idle, Reading, 0, 0, [], 0, [], [])
  }

  /** buffered_count(): unsigned 32-bit subtraction of the counters. */
  function Buffered(s: Ring): nat {
    (s.wr - s.rd) % WRAP
  }

  // ----- steps of the main thread

  /** Entry of dsme_log_queue up to the choice of what to write. */
  function Call(s: Ring): Ring {
    var buffered := Buffered(s);
    var message := Message(s.calls);
    var t := s.(calls := s.calls + 1);
    if buffered >= SLOTS then
      t.(overflow := true, skipped := (s.skipped + 1) % WRAP, missed := s.missed + 1)
    else if !s.overflow then
      t.(producer := Start(message, []))
    else if buffered >= RESUME then
      t.(skipped := (s.skipped + 1) % WRAP, missed := s.missed + 1)
    else
      t.(producer := Start(Lost(s.skipped, s.missed), [message]))
  }

  function BeginFill(s: Ring): Ring
    requires s.producer.Start? && |s.slots| == SLOTS
  {
    s.(slots := s.slots[s.wr % SLOTS := Torn],
       producer := Filling(s.producer.entry, s.producer.next))
  }

  function EndFill(s: Ring): Ring
    requires s.producer.Filling? && |s.slots| == SLOTS
  {
    s.(slots := s.slots[s.wr % SLOTS := Holds(s.producer.entry)],
       producer := Filled(s.producer.entry, s.producer.next))
  }

  /** write_count_inc() */
  function Publish(s: Ring): Ring
    requires s.producer.Filled?
  {
    s.(wr := (s.wr + 1) % WRAP, accepted := s.accepted + [s.producer.entry],
       producer := Published(s.producer.next))
  }

  /** The eventfd write of dsme_log_notify_worker, and what follows it. */
  function Notify(s: Ring): Ring
    requires s.producer.Published?
  {
    if s.producer.next == [] then
      s.(tokens := s.tokens + 1, producer := Idle)
    else
      s.(tokens := s.tokens + 1, overflow := false, skipped := 0, missed := 0,
         producer := Start(s.producer.next[0], s.producer.next[1..]))
  }

  /** dsme_log_stop: the worker is told to exit, and may be given up on. */
  function Stop(s: Ring): Ring {
    s.(enabled := false, producer := Stopping)
  }

  /** Start of the flush loop of dsme_log_close. */
  function BeginFlush(s: Ring): Ring {
    s.(producer := Flushing(s.rd, s.consumed))
  }

  function Flush(s: Ring): Ring
    requires s.producer.Flushing? && |s.slots| == SLOTS
  {
    if s.producer.at == s.wr then
      s.(producer := Closed(s.producer.first))
    else
      s.(flushOut := s.flushOut + [s.slots[s.producer.at % SLOTS]],
         producer := Flushing((s.producer.at + 1) % WRAP, s.producer.first))
  }

  // ----- steps of the worker

  /** The eventfd read: takes the whole count. */
  function ReadTokens(s: Ring): Ring {
    s.(tokens := 0, worker := Woken(s.tokens))
  }

  /** The read fails or the thread is cancelled; only after dsme_log_stop. */
  function Abandon(s: Ring): Ring {
    s.(worker := Exited)
  }

  function Check(s: Ring): Ring
    requires s.worker.Woken? || s.worker.Counted?
  {
    if !s.enabled then s.(worker := Exited)
    else
      var cnt := if s.worker.Woken? then s.worker.cnt else s.worker.cnt - 1;
      s.(worker := if cnt <= 0 then Reading else Looping(cnt))
  }

  /** The bookkeeping check in front of every pop. */
  function Guard(s: Ring): Ring
    requires s.worker.Looping?
  {
    if Buffered(s) == 0 then s.(worker := OutOfSync, enabled := false)
    else s.(worker := Popping(s.worker.cnt))
  }

  /** dsme_log_routine(entry) */
  function Pop(s: Ring): Ring
    requires s.worker.Popping? && |s.slots| == SLOTS
  {
    s.(workerOut := s.workerOut + [s.slots[s.rd % SLOTS]], worker := Popped(s.worker.cnt))
  }

  /** read_count_inc() */
  function Count(s: Ring): Ring
    requires s.worker.Popped?
  {
    s.(rd := (s.rd + 1) % WRAP, consumed := s.consumed + 1, worker := Counted(s.worker.cnt))
  }

  // ----- interleavings

  datatype Step =
    | DoCall | DoBeginFill | DoEndFill | DoPublish | DoNotify
    | DoStop | DoBeginFlush | DoFlush
    | DoRead | DoAbandon | DoCheck | DoGuard | DoPop | DoCount

  predicate Enabled(s: Ring, step: Step) {
    match step
    case DoCall => s.producer.Idle?
    case DoBeginFill => s.producer.Start? && |s.slots| == SLOTS
    case DoEndFill => s.producer.Filling? && |s.slots| == SLOTS
    case DoPublish => s.producer.Filled?
    case DoNotify => s.producer.Published?
    case DoStop => s.producer.Idle?
    case DoBeginFlush => s.producer.Stopping?
    case DoFlush => s.producer.Flushing? && |s.slots| == SLOTS
    case DoRead => s.worker.Reading? && s.tokens > 0
    case DoAbandon => s.worker.Reading? && !s.enabled
    case DoCheck => s.worker.Woken? || s.worker.Counted?
    case DoGuard => s.worker.Looping?
    case DoPop => s.worker.Popping? && |s.slots| == SLOTS
    case DoCount => s.worker.Popped?
  }

  function Apply(s: Ring, step: Step): Ring
    requires Enabled(s, step)
  {
    match step
    case DoCall => Call(s)
    case DoBeginFill => BeginFill(s)
    case DoEndFill => EndFill(s)
    case DoPublish => Publish(s)
    case DoNotify => Notify(s)
    case DoStop => Stop(s)
    case DoBeginFlush => BeginFlush(s)
    case DoFlush => Flush(s)
    case DoRead => ReadTokens(s)
    case DoAbandon => Abandon(s)
    case DoCheck => Check(s)
    case DoGuard => Guard(s)
    case DoPop => Pop(s)
    case DoCount => Count(s)
  }

  /** `t` is reached from `s` by the interleaving `steps`. */
  predicate Reaches(s: Ring, steps: seq<Step>, t: Ring)
    decreases |steps|
  {
    if steps == [] then s == t
    else Enabled(s, steps[0]) && Reaches(Apply(s, steps[0]), steps[1..], t)
  }

  // ----- the invariant

  /** Number of entries in the ring that the worker has not counted as read. */
  function Unread(s: Ring): int {
    |s.accepted| - s.consumed
  }

  /** The bounded ring: at most 128 unread entries, and the 32-bit counters are
      the unbounded totals reduced modulo 2^32. */
  predicate Counters(s: Ring) {
    && |s.slots| == SLOTS
    && 0 <= Unread(s) <= SLOTS
    && s.wr == |s.accepted| % WRAP
    && s.rd == s.consumed % WRAP
  }

  /** Oldest entry that somebody may still output. */
  function Oldest(s: Ring): nat {
    if s.producer.Flushing? then s.producer.first else s.consumed
  }

  predicate SlotsHold(s: Ring)
    requires |s.slots| == SLOTS
  {
    && Oldest(s) <= s.consumed
    && |s.accepted| <= Oldest(s) + SLOTS
    && (forall k :: Oldest(s) <= k < |s.accepted| ==> s.slots[k % SLOTS] == Holds(s.accepted[k]))
    && (s.producer.Filled? ==> s.slots[s.wr % SLOTS] == Holds(s.producer.entry))
  }

  /** Tokens the worker has taken but not yet turned into counted entries. */
  function Held(w: Worker): nat {
    match w
    case Woken(c) => c
    case Looping(c) => c
    case Popping(c) => c
    case Popped(c) => c
    case Counted(c) => if c == 0 then 0 else c - 1
    case _ => 0
  }

  function InFlight(p: Producer): nat {
    if p.Published? then 1 else 0
  }

  /** Every unread entry is announced exactly once: by a token, by the count
      the worker holds, or by the notification about to be written. */
  predicate Tokens(s: Ring) {
    && !s.worker.OutOfSync?
    && (!s.worker.Exited? ==> s.tokens + Held(s.worker) + InFlight(s.producer) == Unread(s))
    && (s.worker.Looping? || s.worker.Popping? || s.worker.Popped? || s.worker.Counted? ==> s.worker.cnt > 0)
    && (s.worker.Exited? ==> !s.enabled)
    && (s.enabled <==> !(s.producer.Stopping? || s.producer.Flushing? || s.producer.Closed?))
  }

  function Pending(p: Producer): seq<Entry> {
    match p
    case Start(e, t) => [e] + t
    case Filling(e, t) => [e] + t
    case Filled(e, t) => [e] + t
    case Published(t) => t
    case _ => []
  }

  /** There is room for everything the current call still has to write. */
  predicate Room(s: Ring) {
    Unread(s) + |Pending(s.producer)| <= SLOTS
  }

  /** How many entries the worker has output. */
  function Delivered(s: Ring): nat {
    if s.worker.Popped? then s.consumed + 1 else s.consumed
  }

  predicate IsOutputOf(out: seq<Slot>, accepted: seq<Entry>, from: nat, to: nat) {
    && from <= to <= |accepted|
    && |out| == to - from
    && forall k :: from <= k < to ==> out[k - from] == Holds(accepted[k])
  }

  predicate WorkerDelivers(s: Ring) {
    IsOutputOf(s.workerOut, s.accepted, 0, Delivered(s))
  }

  /** Number of calls that the accepted entries account for. */
  function Expected(log: seq<Entry>): nat {
    if log == [] then 0
    else match log[|log| - 1]
      case Message(call) => call + 1
      case Lost(_, actual) => Expected(log[..|log| - 1]) + actual
  }

  /** Every message carries the number of the first call not accounted for yet,
      and an overflow record prints the number of skipped calls modulo 2^32. */
  predicate Gapless(log: seq<Entry>)
  {
    log == [] ||
    (var last := log[|log| - 1];
     var rest := log[..|log| - 1];
     Gapless(rest) &&
     match last
     case Message(call) => call == Expected(rest)
     case Lost(printed, actual) => printed == actual % WRAP && actual > 0)
  }

  predicate Accounts(s: Ring) {
    && s.skipped == s.missed % WRAP
    && (s.producer.Idle? ==> (s.overflow <==> s.missed > 0))
    && Gapless(s.accepted)
    && match s.producer
       case Start(e, t) => AccountsFor(s, e, t)
       case Filling(e, t) => AccountsFor(s, e, t)
       case Filled(e, t) => AccountsFor(s, e, t)
       case Published(t) =>
         if t == [] then s.calls == Expected(s.accepted) && s.missed == 0 && !s.overflow
         else s.calls > 0 && t == [Message(s.calls - 1)] && s.calls == Expected(s.accepted) + 1
       case _ => s.calls == Expected(s.accepted) + s.missed
  }

  predicate AccountsFor(s: Ring, e: Entry, t: seq<Entry>) {
    || (&& t == [] && s.calls > 0 && e == Message(s.calls - 1)
        && s.missed == 0 && !s.overflow && s.calls == Expected(s.accepted) + 1)
    || (&& e == Lost(s.skipped, s.missed) && s.calls > 0 && t == [Message(s.calls - 1)]
        && s.missed > 0 && s.calls == Expected(s.accepted) + s.missed + 1)
  }

  /** Outputs the worker can still make once it has been told to exit. */
  function Remaining(w: Worker): nat {
    if w.Looping? || w.Popping? then 1 else 0
  }

  predicate FlushDelivers(s: Ring) {
    match s.producer
    case Flushing(at, first) =>
      && first <= Delivered(s)
      && Delivered(s) + Remaining(s.worker) <= first + 1
      && first + |s.flushOut| <= |s.accepted|
      && at == (first + |s.flushOut|) % WRAP
      && IsOutputOf(s.flushOut, s.accepted, first, first + |s.flushOut|)
    case Closed(first) =>
      && first <= Delivered(s)
      && Delivered(s) + Remaining(s.worker) <= first + 1
      && IsOutputOf(s.flushOut, s.accepted, first, |s.accepted|)
    case _ => s.flushOut == []
  }

  predicate Inv(s: Ring) {
    && Counters(s)
    && SlotsHold(s)
    && Tokens(s)
    && Room(s)
    && WorkerDelivers(s)
    && Accounts(s)
    && FlushDelivers(s)
  }

  // ----- every step keeps the invariant

  lemma InitInv(s: Ring)
    requires Initial(s)
    ensures Inv(s)
  {
  }

  /** Two distinct entries less than a ring apart never share a slot. */
  lemma SlotsDiffer(i: nat, j: nat)
    requires i < j < i + SLOTS
    ensures i % SLOTS != j % SLOTS
  {
  }

  /** 128 divides 2^32, so the wrapped counter selects the same slot. */
  lemma SlotOfWrapped(n: nat)
    ensures (n % WRAP) % SLOTS == n % SLOTS
  {
  }

  /** The unsigned difference of the wrapped counters is the true difference. */
  lemma BufferedIsUnread(s: Ring)
    requires Counters(s)
    ensures Buffered(s) == Unread(s)
  {
  }

  lemma WrapInc(n: nat)
    ensures (n % WRAP + 1) % WRAP == (n + 1) % WRAP
  {
  }

  lemma GaplessSnoc(log: seq<Entry>, e: Entry)
    ensures (log + [e])[..|log|] == log
    ensures Gapless(log + [e]) <==>
            Gapless(log) && match e
            case Message(call) => call == Expected(log)
            case Lost(printed, actual) => printed == actual % WRAP && actual > 0
    ensures Expected(log + [e]) == if e.Message? then e.call + 1 else Expected(log) + e.actual
  {
  }

  lemma CallInv(s: Ring)
    requires Inv(s) && Enabled(s, DoCall)
    ensures Inv(Call(s))
  {
    CallKeeps(s);
    CallAccounts(s);
  }

  lemma CallKeeps(s: Ring)
    requires Counters(s) && SlotsHold(s) && Tokens(s) && Room(s) && WorkerDelivers(s) && FlushDelivers(s)
    requires s.producer.Idle?
    ensures Counters(Call(s)) && SlotsHold(Call(s)) && Tokens(Call(s)) && Room(Call(s)) && WorkerDelivers(Call(s))
            && FlushDelivers(Call(s))
  {
    BufferedIsUnread(s);
    assert [Lost(s.skipped, s.missed)] + [Message(s.calls)] == [Lost(s.skipped, s.missed), Message(s.calls)];
  }

  lemma CallAccounts(s: Ring)
    requires Accounts(s) && s.producer.Idle?
    ensures Accounts(Call(s))
  {
    WrapInc(s.missed);
  }

  lemma BeginFillInv(s: Ring)
    requires Inv(s) && Enabled(s, DoBeginFill)
    ensures Inv(BeginFill(s))
  {
    FillKeeps(s, Torn);
  }

  /** Writing the slot at the write position harms no unread entry. */
  lemma FillKeeps(s: Ring, slot: Slot)
    requires Inv(s) && (s.producer.Start? || s.producer.Filling?)
    ensures s.wr % SLOTS == |s.accepted| % SLOTS
    ensures forall k :: s.consumed <= k < |s.accepted| ==>
              s.slots[s.wr % SLOTS := slot][k % SLOTS] == Holds(s.accepted[k])
  {
    SlotOfWrapped(|s.accepted|);
    forall k | s.consumed <= k < |s.accepted|
      ensures s.slots[s.wr % SLOTS := slot][k % SLOTS] == Holds(s.accepted[k])
    {
      SlotsDiffer(k, |s.accepted|);
    }
  }

  lemma EndFillInv(s: Ring)
    requires Inv(s) && Enabled(s, DoEndFill)
    ensures Inv(EndFill(s))
  {
    FillKeeps(s, Holds(s.producer.entry));
  }

  lemma PublishInv(s: Ring)
    requires Inv(s) && Enabled(s, DoPublish)
    ensures Inv(Publish(s))
  {
    PublishSlots(s);
    PublishKeeps(s);
    PublishAccounts(s);
  }

  lemma PublishSlots(s: Ring)
    requires Counters(s) && SlotsHold(s) && Room(s) && s.producer.Filled?
    ensures Counters(Publish(s)) && SlotsHold(Publish(s))
  {
    WrapInc(|s.accepted|);
    SlotOfWrapped(|s.accepted|);
    var t := Publish(s);
    forall k | t.consumed <= k < |t.accepted|
      ensures t.slots[k % SLOTS] == Holds(t.accepted[k])
    {
    }
  }

  lemma PublishKeeps(s: Ring)
    requires Tokens(s) && Room(s) && WorkerDelivers(s) && FlushDelivers(s) && s.producer.Filled?
    ensures Tokens(Publish(s)) && Room(Publish(s)) && WorkerDelivers(Publish(s)) && FlushDelivers(Publish(s))
  {
  }

  lemma PublishAccounts(s: Ring)
    requires Accounts(s) && s.producer.Filled?
    ensures Accounts(Publish(s))
  {
    GaplessSnoc(s.accepted, s.producer.entry);
  }

  lemma NotifyInv(s: Ring)
    requires Inv(s) && Enabled(s, DoNotify)
    ensures Inv(Notify(s))
  {
  }

  lemma StopInv(s: Ring)
    requires Inv(s) && Enabled(s, DoStop)
    ensures Inv(Stop(s))
  {
  }

  lemma BeginFlushInv(s: Ring)
    requires Inv(s) && Enabled(s, DoBeginFlush)
    ensures Inv(BeginFlush(s))
  {
  }

  lemma FlushInv(s: Ring)
    requires Inv(s) && Enabled(s, DoFlush)
    ensures Inv(Flush(s))
  {
    if s.producer.at == s.wr {
      FlushEnds(s);
    } else {
      FlushOutputs(s);
    }
    FlushKeepsRest(s);
  }

  lemma FlushKeepsRest(s: Ring)
    requires Counters(s) && Tokens(s) && Room(s) && WorkerDelivers(s) && Accounts(s) && s.producer.Flushing?
    ensures Counters(Flush(s)) && Tokens(Flush(s)) && Room(Flush(s)) && WorkerDelivers(Flush(s)) && Accounts(Flush(s))
  {
  }

  lemma FlushEnds(s: Ring)
    requires Counters(s) && SlotsHold(s) && FlushDelivers(s) && s.producer.Flushing? && s.producer.at == s.wr
    ensures Counters(Flush(s)) && SlotsHold(Flush(s)) && FlushDelivers(Flush(s))
  {
  }

  lemma FlushOutputs(s: Ring)
    requires Counters(s) && SlotsHold(s) && FlushDelivers(s) && s.producer.Flushing? && s.producer.at != s.wr
    ensures Counters(Flush(s)) && SlotsHold(Flush(s)) && FlushDelivers(Flush(s))
  {
    var first := s.producer.first;
    var n := first + |s.flushOut|;
    assert n < |s.accepted|;
    SlotOfWrapped(n);
    WrapInc(n);
    assert s.slots[s.producer.at % SLOTS] == Holds(s.accepted[n]);
  }

  lemma ReadInv(s: Ring)
    requires Inv(s) && Enabled(s, DoRead)
    ensures Inv(ReadTokens(s))
  {
  }

  lemma AbandonInv(s: Ring)
    requires Inv(s) && Enabled(s, DoAbandon)
    ensures Inv(Abandon(s))
  {
  }

  /** Nothing the worker does changes the accounts of the main thread. */
  lemma AccountsKept(s: Ring, t: Ring)
    requires Accounts(s) && t.producer == s.producer && t.accepted == s.accepted && t.calls == s.calls
    requires t.overflow == s.overflow && t.skipped == s.skipped && t.missed == s.missed
    ensures Accounts(t)
  {
  }

  lemma CheckInv(s: Ring)
    requires Inv(s) && Enabled(s, DoCheck)
    ensures Inv(Check(s))
  {
    CheckKeeps(s);
    AccountsKept(s, Check(s));
  }

  lemma CheckKeeps(s: Ring)
    requires Counters(s) && SlotsHold(s) && Tokens(s) && Room(s) && WorkerDelivers(s) && FlushDelivers(s)
    requires s.worker.Woken? || s.worker.Counted?
    ensures Counters(Check(s)) && SlotsHold(Check(s)) && Tokens(Check(s)) && Room(Check(s)) && WorkerDelivers(Check(s))
            && FlushDelivers(Check(s))
  {
  }

  /** The worker never finds the bookkeeping out of sync. */
  lemma GuardInv(s: Ring)
    requires Inv(s) && Enabled(s, DoGuard)
    ensures Inv(Guard(s)) && Guard(s).worker.Popping?
  {
    GuardKeeps(s);
    AccountsKept(s, Guard(s));
  }

  lemma GuardKeeps(s: Ring)
    requires Counters(s) && SlotsHold(s) && Tokens(s) && Room(s) && WorkerDelivers(s) && FlushDelivers(s)
    requires s.worker.Looping?
    ensures Guard(s) == s.(worker := Popping(s.worker.cnt))
    ensures Counters(Guard(s)) && SlotsHold(Guard(s)) && Tokens(Guard(s)) && Room(Guard(s)) && WorkerDelivers(Guard(s))
            && FlushDelivers(Guard(s))
  {
    BufferedIsUnread(s);
  }

  lemma PopInv(s: Ring)
    requires Inv(s) && Enabled(s, DoPop)
    ensures Inv(Pop(s))
  {
    PopDelivers(s);
    PopKeeps(s);
    AccountsKept(s, Pop(s));
  }

  lemma PopKeeps(s: Ring)
    requires Counters(s) && SlotsHold(s) && Tokens(s) && Room(s) && FlushDelivers(s) && s.worker.Popping?
    ensures Counters(Pop(s)) && SlotsHold(Pop(s)) && Tokens(Pop(s)) && Room(Pop(s)) && FlushDelivers(Pop(s))
  {
  }

  lemma PopDelivers(s: Ring)
    requires Counters(s) && SlotsHold(s) && Tokens(s) && WorkerDelivers(s) && s.worker.Popping?
    ensures WorkerDelivers(Pop(s))
  {
    SlotOfWrapped(s.consumed);
    assert s.slots[s.rd % SLOTS] == Holds(s.accepted[s.consumed]);
  }

  lemma CountInv(s: Ring)
    requires Inv(s) && Enabled(s, DoCount)
    ensures Inv(Count(s))
  {
    WrapInc(s.consumed);
  }

  lemma StepInv(s: Ring, step: Step)
    requires Inv(s) && Enabled(s, step)
    ensures Inv(Apply(s, step))
  {
    match step
    case DoCall => CallInv(s);
    case DoBeginFill => BeginFillInv(s);
    case DoEndFill => EndFillInv(s);
    case DoPublish => PublishInv(s);
    case DoNotify => NotifyInv(s);
    case DoStop => StopInv(s);
    case DoBeginFlush => BeginFlushInv(s);
    case DoFlush => FlushInv(s);
    case DoRead => ReadInv(s);
    case DoAbandon => AbandonInv(s);
    case DoCheck => CheckInv(s);
    case DoGuard => GuardInv(s);
    case DoPop => PopInv(s);
    case DoCount => CountInv(s);
  }

  lemma {:induction false} RunInv(s: Ring, steps: seq<Step>, t: Ring)
    requires Inv(s) && Reaches(s, steps, t)
    ensures Inv(t)
    decreases |steps|
  {
    if steps != [] {
      StepInv(s, steps[0]);
      RunInv(Apply(s, steps[0]), steps[1..], t);
    }
  }

  // ----- what holds in every interleaving

  /** At most 128 entries are unread, none of them is ever overwritten or half
      written, the out-of-sync exit is unreachable, and until the worker exits
      the eventfd count, the count it holds and the notification in flight
      together announce every unread entry exactly once. */
  lemma RingIsSafe(s: Ring, steps: seq<Step>, t: Ring)
    requires Initial(s) && Reaches(s, steps, t)
    ensures 0 <= Unread(t) <= SLOTS == |t.slots|
    ensures t.wr == |t.accepted| % WRAP && t.rd == t.consumed % WRAP
    ensures forall k :: t.consumed <= k < |t.accepted| ==> t.slots[k % SLOTS] == Holds(t.accepted[k])
    ensures !t.worker.OutOfSync?
    ensures !t.worker.Exited? ==> t.tokens + Held(t.worker) + InFlight(t.producer) == Unread(t)
  {
    InitInv(s);
    RunInv(s, steps, t);
  }

  /** The worker has output exactly the oldest accepted entries, in order, and
      it never sleeps on an entry whose notification has been written. */
  lemma WorkerOutputIsPrefix(s: Ring, steps: seq<Step>, t: Ring)
    requires Initial(s) && Reaches(s, steps, t)
    ensures |t.workerOut| <= |t.accepted|
    ensures forall k :: 0 <= k < |t.workerOut| ==> t.workerOut[k] == Holds(t.accepted[k])
    ensures t.worker.Reading? && t.tokens == 0 && !t.producer.Published? ==> |t.workerOut| == |t.accepted|
  {
    InitInv(s);
    RunInv(s, steps, t);
  }

  /** Entry `k` of the log accounts for call number `c`. */
  predicate Covers(log: seq<Entry>, k: nat, c: nat)
    requires k < |log|
  {
    match log[k]
    case Message(call) => c == call
    case Lost(_, actual) => Expected(log[..k]) <= c < Expected(log[..k]) + actual
  }

  lemma {:induction false} ExpectedGrows(log: seq<Entry>, k: nat)
    requires Gapless(log) && k < |log|
    ensures Gapless(log[..k])
    ensures Expected(log[..k]) < Expected(log[..k + 1]) <= Expected(log)
    ensures forall c: nat :: Covers(log, k, c) <==> Expected(log[..k]) <= c < Expected(log[..k + 1])
  {
    var rest := log[..|log| - 1];
    if k == |log| - 1 {
      assert log[..k + 1] == log && log[..k] == rest;
    } else {
      ExpectedGrows(rest, k);
      assert rest[..k] == log[..k] && rest[..k + 1] == log[..k + 1];
      assert forall c: nat :: Covers(log, k, c) <==> Covers(rest, k, c);
    }
  }

  /** In a gapless log every call up to the last one accounted for is covered
      by exactly one entry. */
  lemma {:induction false} CoveredOnce(log: seq<Entry>, c: nat) returns (k: nat)
    requires Gapless(log) && c < Expected(log)
    ensures k < |log| && Covers(log, k, c)
    ensures forall j: nat :: j < |log| && Covers(log, j, c) ==> j == k
  {
    var rest := log[..|log| - 1];
    if c < Expected(rest) {
      k := CoveredOnce(rest, c);
      assert log[..k] == rest[..k];
    } else {
      k := |log| - 1;
      assert log[..k + 1] == log;
      ExpectedGrows(log, k);
    }
    forall j: nat | j < |log| && Covers(log, j, c)
      ensures j == k
    {
      if j < k {
        CoversApart(log, j, k, c);
      } else if k < j {
        CoversApart(log, k, j, c);
      }
    }
  }

  lemma CoversApart(log: seq<Entry>, i: nat, j: nat, c: nat)
    requires Gapless(log) && i < j < |log|
    ensures !(Covers(log, i, c) && Covers(log, j, c))
  {
    ExpectedGrows(log, i);
    ExpectedGrows(log, j);
    ExpectedGrows(log[..j], i);
    assert log[..j][..i + 1] == log[..i + 1];
  }

  /** Between two calls of dsme_log_queue every call made so far is one accepted
      message, or counted in exactly one overflow record (which prints that
      number modulo 2^32), or still in the pending count. */
  lemma EveryCallAccounted(s: Ring, steps: seq<Step>, t: Ring)
    requires Initial(s) && Reaches(s, steps, t) && t.producer.Idle?
    ensures Gapless(t.accepted)
    ensures t.calls == Expected(t.accepted) + t.missed && t.skipped == t.missed % WRAP
    ensures t.overflow <==> t.missed > 0
  {
    InitInv(s);
    RunInv(s, steps, t);
  }

  /** The overflow hysteresis in terms of the true number of unread entries: a
      call is written out unless the ring is full, or it has been full and is
      not yet down to 7/8 of its size; the first call written out after a loss
      is preceded by the record of that loss. */
  lemma OverflowHysteresis(s: Ring, steps: seq<Step>, t: Ring)
    requires Initial(s) && Reaches(s, steps, t) && t.producer.Idle?
    ensures Call(t).producer.Start? <==> Unread(t) < (if t.missed > 0 then 112 else 128)
    ensures Call(t).producer.Start? ==>
              Pending(Call(t).producer) ==
              if t.missed > 0 then [Lost(t.missed % WRAP, t.missed), Message(t.calls)] else [Message(t.calls)]
    ensures !Call(t).producer.Start? ==> Call(t) == t.(calls := t.calls + 1, overflow := true,
                                                       skipped := (t.missed + 1) % WRAP, missed := t.missed + 1)
  {
    InitInv(s);
    RunInv(s, steps, t);
    BufferedIsUnread(t);
    WrapInc(t.missed);
    var m := Message(t.calls);
    assert [Lost(t.skipped, t.missed)] + [m] == [Lost(t.skipped, t.missed), m];
  }

  /** After dsme_log_close every accepted entry has been output: the worker
      output the first `k`, the main thread those from `j` on, and they share
      at most one entry - even when the worker outlives the timed join. */
  lemma CloseDeliversAll(s: Ring, steps: seq<Step>, t: Ring) returns (j: nat)
    requires Initial(s) && Reaches(s, steps, t) && t.producer.Closed?
    ensures j <= |t.workerOut| <= j + 1 && j <= |t.accepted|
    ensures |t.flushOut| == |t.accepted| - j
    ensures forall k :: 0 <= k < |t.flushOut| ==> t.flushOut[k] == Holds(t.accepted[j + k])
    ensures |t.workerOut| <= |t.accepted|
    ensures forall k :: 0 <= k < |t.workerOut| ==> t.workerOut[k] == Holds(t.accepted[k])
  {
    InitInv(s);
    RunInv(s, steps, t);
    j := t.producer.first;
    forall k | 0 <= k < |t.flushOut|
      ensures t.flushOut[k] == Holds(t.accepted[j + k])
    {
      assert t.flushOut[(j + k) - j] == Holds(t.accepted[j + k]);
    }
  }
}
