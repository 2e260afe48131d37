/** The module bus of dsme/modulebase.c: a sorted list of message handlers and a
    first-in first-out message queue that handlers add to while it is drained. */
module ModuleBase {

  type ModuleId = nat

  /** A registered handler. `serial` numbers the registrations in load order. */
  datatype Handler = Handler(msgType: nat, size: nat, owner: ModuleId, priority: int, callback: nat, serial: nat)

  /** One row of a module's message_handlers table. */
  datatype Row = Row(msgType: nat, size: nat, callback: nat)

  /** A queued message; `to` is the recipient module, or everybody. */
  datatype Message = Message(msgType: nat, size: nat, lineSize: nat, to: Recipient, content: nat)

  datatype Recipient = Everybody | Only(id: ModuleId)

  /** Smallest line that a message header fits in. */
  const HEADER_SIZE: nat := 12
  const IDLE_TYPE: nat := 0x1337

  function Compare(a: int, b: int): int {
    if a > b then 1 else if a < b then -1 else 0
  }

  /** sort_comparator: never zero, so equal handlers keep their load order. */
  function SortComparator(add: Handler, other: Handler): int {
    var byType := Compare(add.msgType, other.msgType);
    if byType != 0 then byType
    else
      var byPriority := Compare(add.priority, other.priority);
      if byPriority != 0 then byPriority else 1
  }

  /** Ascending by type, then priority, then load order. */
  predicate Before(a: Handler, b: Handler) {
    || a.msgType < b.msgType
    || (a.msgType == b.msgType && a.priority < b.priority)
    || (a.msgType == b.msgType && a.priority == b.priority && a.serial < b.serial)
  }

  predicate Sorted(hs: seq<Handler>) {
    forall i, j :: 0 <= i < j < |hs| ==> Before(hs[i], hs[j])
  }

  /** Type, recipient and size decide which handlers a message reaches. */
  predicate Reaches(h: Handler, m: Message) {
    && h.msgType == m.msgType
    && (m.to == Everybody || m.to == Only(h.owner))
    && m.lineSize >= h.size && m.size == h.size
  }

  function Reached(hs: seq<Handler>, m: Message): seq<Handler> {
    if hs == [] then []
    else Reached(hs[..|hs| - 1], m) + if Reaches(hs[|hs| - 1], m) then [hs[|hs| - 1]] else []
  }

  /** The calls made for a row of messages, in order. */
  function Calls(hs: seq<Handler>, ms: seq<Message>): seq<(Handler, Message)> {
    if ms == [] then []
    else Calls(hs, ms[..|ms| - 1]) + Tagged(Reached(hs, ms[|ms| - 1]), ms[|ms| - 1])
  }

  function Tagged(hs: seq<Handler>, m: Message): seq<(Handler, Message)> {
    seq(|hs|, i requires 0 <= i < |hs| => (hs[i], m))
  }

  /** What is handed to queue_message: a message and the size of an extra payload
      that is copied behind it. */
  datatype Post = Post(message: Message, extra: nat)

  /** queue_message drops a line that is shorter than a header, and adds the extra
      payload to the line of any other. */
  function Accepted(ps: seq<Post>): seq<Message> {
    if ps == [] then []
    else
      var p := ps[|ps| - 1];
      Accepted(ps[..|ps| - 1]) + if p.message.lineSize < HEADER_SIZE then [] else [Lengthened(p)]
  }

  function Lengthened(p: Post): Message {
    p.message.(lineSize := p.message.lineSize + p.extra)
  }

  /** What is posted first comes first, and each line that holds a header is queued
      once, with its payload. */
  lemma {:induction false} AcceptedInOrder(a: seq<Post>, p: Post, b: seq<Post>)
    ensures var m := p.message; var line := m.(lineSize := m.lineSize + p.extra);
            Accepted(a + [p] + b) == Accepted(a) + (if m.lineSize < 12 then [] else [line]) + Accepted(b)
  {
    if b == [] {
      assert a + [p] + b == a + [p];
    } else {
      var init, last := b[..|b| - 1], b[|b| - 1];
      AcceptedInOrder(a, p, init);
      assert (a + [p] + b)[..|a| + |b|] == a + [p] + init;
    }
  }

  /** What `calls` handler calls post, in call order, from call number `n` on. */
  function Posts(script: nat -> seq<Post>, n: nat, calls: nat): seq<Message> {
    if calls == 0 then [] else Posts(script, n, calls - 1) + Accepted(script(n + calls - 1))
  }

  /** From `limit` more calls on, handlers post nothing. */
  ghost predicate Quiet(script: nat -> seq<Post>, n: nat, limit: nat) {
    forall c: nat :: n + limit <= c ==> script(c) == []
  }

  lemma {:induction false} QuietPosts(script: nat -> seq<Post>, n: nat, calls: nat, limit: nat)
    requires Quiet(script, n, limit)
    ensures |Posts(script, n, calls)| <= |Posts(script, n, limit)|
    decreases if calls <= limit then limit - calls else calls
  {
    if calls < limit {
      QuietPosts(script, n, calls + 1, limit);
    } else if calls > limit {
      QuietPosts(script, n, calls - 1, limit);
    }
  }

  lemma {:induction false} PostsConcat(script: nat -> seq<Post>, n: nat, a: nat, b: nat)
    ensures Posts(script, n, a + b) == Posts(script, n, a) + Posts(script, n + a, b)
  {
    if b > 0 {
      PostsConcat(script, n, a, b - 1);
    }
  }

  /** Every message ever queued, every handler call, every message taken from the
      queue. */
  datatype Log = Log(posted: seq<Message>, called: seq<(Handler, Message)>, delivered: seq<Message>)

  /** A message has been handed to its handlers. */
  function Noticed(script: nat -> seq<Post>, hs: seq<Handler>, log: Log, m: Message): Log {
    Log(log.posted + Posts(script, |log.called|, |Reached(hs, m)|), log.called + Tagged(Reached(hs, m), m),
        log.delivered)
  }

  /** The messages `taken` have been taken from the queue and handed out: each
      reached handler has been called once, in order, and what the calls posted has
      been queued in that order. */
  function Drained(script: nat -> seq<Post>, hs: seq<Handler>, log: Log, taken: seq<Message>): Log {
    Log(log.posted + Posts(script, |log.called|, |Calls(hs, taken)|), log.called + Calls(hs, taken),
        log.delivered + taken)
  }

  function KeepOthers(hs: seq<Handler>, owner: ModuleId): seq<Handler> {
    if hs == [] then []
    else KeepOthers(hs[..|hs| - 1], owner) + if hs[|hs| - 1].owner == owner then [] else [hs[|hs| - 1]]
  }

  lemma {:induction false} KeepOthersFacts(hs: seq<Handler>, owner: ModuleId)
    ensures forall h :: h in KeepOthers(hs, owner) <==> h in hs && h.owner != owner
    ensures Sorted(hs) ==> Sorted(KeepOthers(hs, owner))
  {
    if hs != [] {
      var init, last := hs[..|hs| - 1], hs[|hs| - 1];
      KeepOthersFacts(init, owner);
      assert hs == init + [last];
      var kept := KeepOthers(init, owner);
      if Sorted(hs) && last.owner != owner {
        forall i, j | 0 <= i < j < |kept + [last]|
          ensures Before((kept + [last])[i], (kept + [last])[j])
        {
          if j == |kept| {
            assert kept[i] in kept;
            var k :| 0 <= k < |init| && init[k] == kept[i];
            assert Before(hs[k], hs[|init|]);
          }
        }
      }
    }
  }

  /** Exactly the matching handlers, each as often as it is registered, in list
      order. */
  lemma {:induction false} ReachedFacts(hs: seq<Handler>, m: Message)
    ensures forall h :: h in Reached(hs, m) <==>
              && h in hs && h.msgType == m.msgType && (m.to == Everybody || m.to == Only(h.owner))
              && h.size == m.size <= m.lineSize
    ensures Sorted(hs) ==> Sorted(Reached(hs, m))
  {
    if hs != [] {
      var init, last := hs[..|hs| - 1], hs[|hs| - 1];
      ReachedFacts(init, m);
      assert hs == init + [last];
      var found := Reached(init, m);
      if Sorted(hs) && Reaches(last, m) {
        forall i, j | 0 <= i < j < |found + [last]|
          ensures Before((found + [last])[i], (found + [last])[j])
        {
          if j == |found| {
            assert found[i] in found;
            var k :| 0 <= k < |init| && init[k] == found[i];
            assert Before(hs[k], hs[|init|]);
          }
        }
      }
    }
  }

  class Bus {
    var callbacks: seq<Handler>
    var queue: seq<Message>
    /** What the n-th call of a handler posts. Handlers have a state of their own,
        so this may be anything. */
    const script: nat -> seq<Post>
    /** Every call of a handler so far. */
    var called: seq<(Handler, Message)>
    var nextSerial: nat

    /** Handlers registered and not removed since. */
    ghost var registered: set<Handler>
    /** Every message ever queued, and every one taken from the queue. */
    ghost var posted: seq<Message>
    ghost var delivered: seq<Message>

    /** The list is sorted and holds what is registered. */
    ghost predicate HandlersValid()
      reads this`callbacks, this`registered, this`nextSerial
    {
      && Sorted(callbacks)
      && (forall h :: h in callbacks <==> h in registered)
      && (forall h :: h in registered ==> h.serial < nextSerial)
    }

    /** First in, first out, nothing lost and nothing twice. */
    ghost predicate QueueValid()
      reads this`posted, this`delivered, this`queue
    {
      posted == delivered + queue
    }

    ghost predicate Valid()
      reads this
    {
      HandlersValid() && QueueValid()
    }

    constructor (script: nat -> seq<Post>)
      ensures Valid() && registered == {} && posted == [] && delivered == [] && called == [] && this.script == script
    {
      this.script := script;
      callbacks, queue, nextSerial := [], [], 0;
      registered, posted, delivered, called := {}, [], [], [];
    }

    /** modulebase_add_single_handler: g_slist_insert_sorted walks past everything
        that does not compare greater. */
    method AddSingleHandler(row: Row, owner: ModuleId, priority: int)
      requires Valid()
      modifies this`callbacks, this`nextSerial, this`registered
      ensures Valid() && nextSerial == old(nextSerial) + 1
      ensures registered == old(registered) +
                            {Handler(row.msgType, row.size, owner, priority, row.callback, old(nextSerial))}
      ensures forall i, j :: 0 <= i < j < |callbacks| ==>
                var a, b := callbacks[i], callbacks[j];
                || a.msgType < b.msgType
                || (a.msgType == b.msgType && a.priority < b.priority)
                || (a.msgType == b.msgType && a.priority == b.priority && a.serial < b.serial)
    {
      var handler := Handler(row.msgType, row.size, owner, priority, row.callback, nextSerial);
      var i := 0;
      while i < |callbacks| && SortComparator(handler, callbacks[i]) > 0
        invariant 0 <= i <= |callbacks|
        invariant forall k :: 0 <= k < i ==> Before(callbacks[k], handler)
      {
        assert callbacks[i] in callbacks;
        i := i + 1;
      }
      assert i < |callbacks| ==> callbacks[i] in callbacks;
      InsertKeepsSorted(callbacks, i, handler);
      InsertMembers(callbacks, i, handler);
      callbacks := InsertAt(callbacks, i, handler);
      registered := registered + {handler};
      nextSerial := nextSerial + 1;
    }

    /** add_msghandlers: the rows of the module's table, in order. */
    method AddMsgHandlers(table: seq<Row>, owner: ModuleId, priority: int)
      requires Valid()
      modifies this`callbacks, this`nextSerial, this`registered
      ensures Valid() && nextSerial == old(nextSerial) + |table|
      ensures registered == old(registered) + set k | 0 <= k < |table| ::
                Handler(table[k].msgType, table[k].size, owner, priority, table[k].callback, old(nextSerial) + k)
    {
      var i := 0;
      while i < |table|
        invariant 0 <= i <= |table| && Valid() && nextSerial == old(nextSerial) + i
        invariant registered == old(registered) + set k | 0 <= k < i ::
                    Handler(table[k].msgType, table[k].size, owner, priority, table[k].callback, old(nextSerial) + k)
      {
        AddSingleHandler(table[i], owner, priority);
        i := i + 1;
      }
    }

    /** remove_msghandlers */
    method RemoveMsgHandlers(owner: ModuleId)
      requires Valid()
      modifies this`callbacks, this`registered
      ensures Valid() && registered == set h | h in old(registered) && h.owner != owner
    {
      var i := 0;
      var kept := [];
      while i < |callbacks|
        invariant 0 <= i <= |callbacks| && kept == KeepOthers(callbacks[..i], owner)
      {
        assert callbacks[..i + 1][..i] == callbacks[..i];
        if callbacks[i].owner != owner {
          kept := kept + [callbacks[i]];
        }
        i := i + 1;
      }
      assert callbacks[..i] == callbacks;
      KeepOthersFacts(callbacks, owner);
      callbacks := kept;
      registered := set h | h in registered && h.owner != owner;
    }

    /** queue_message: a line shorter than a header is dropped. */
    method QueueMessage(p: Post)
      requires QueueValid()
      modifies this`queue, this`posted
      ensures QueueValid()
      ensures var m := p.message; var line := m.(lineSize := m.lineSize + p.extra);
              if m.lineSize < 12 then queue == old(queue) && posted == old(posted)
              else queue == old(queue) + [line] && posted == old(posted) + [line]
    {
      var m := p.message;
      if m.lineSize < HEADER_SIZE {
        return;
      }
      m := m.(lineSize := m.lineSize + p.extra);
      queue := queue + [m];
      posted := posted + [m];
    }

    /** What a called handler posts. */
    method PostAll(ps: seq<Post>)
      requires QueueValid()
      modifies this`queue, this`posted
      ensures QueueValid() && queue == old(queue) + Accepted(ps) && posted == old(posted) + Accepted(ps)
    {
      for i := 0 to |ps|
        invariant QueueValid()
        invariant queue == old(queue) + Accepted(ps[..i]) && posted == old(posted) + Accepted(ps[..i])
      {
        assert ps[..i + 1][..i] == ps[..i];
        QueueMessage(ps[i]);
      }
      assert ps[..|ps|] == ps;
    }

    /** handle_message: calls every handler the message reaches, once, in list
        order; what they post goes to the end of the queue in that order. */
    method HandleMessage(m: Message)
      requires QueueValid()
      modifies this`queue, this`posted, this`called
      ensures QueueValid()
      ensures called == old(called) + Tagged(Reached(callbacks, m), m)
      ensures posted == old(posted) + Posts(script, |old(called)|, |Reached(callbacks, m)|)
    {
      var i := 0;
      ghost var reached: seq<Handler> := [];
      while i < |callbacks|
        invariant 0 <= i <= |callbacks| && QueueValid()
        invariant reached == Reached(callbacks[..i], m)
        invariant called == old(called) + Tagged(reached, m)
        invariant posted == old(posted) + Posts(script, |old(called)|, |reached|)
      {
        var handler := callbacks[i];
        assert callbacks[..i + 1][..i] == callbacks[..i];
        if Compare(handler.msgType, m.msgType) == 0
           && (m.to == Everybody || m.to == Only(handler.owner))
           && m.lineSize >= handler.size && m.size == handler.size {
          PostAll(script(|called|));
          called := called + [(handler, m)];
          reached := reached + [handler];
        }
        i := i + 1;
      }
      assert callbacks[..i] == callbacks;
    }

    /** Takes the first message from the queue and hands it to its handlers. */
    method DeliverFront() returns (ghost front: Message)
      requires QueueValid() && queue != []
      modifies this`queue, this`posted, this`delivered, this`called
      ensures QueueValid() && delivered == old(delivered) + [front] && front == old(queue)[0]
      ensures posted == old(posted) + Posts(script, |old(called)|, |Reached(callbacks, front)|)
      ensures called == old(called) + Tagged(Reached(callbacks, front), front)
    {
      var first := queue[0];
      front := first;
      queue := queue[1..];
      delivered := delivered + [front];
      HandleMessage(first);
    }

    /** What has been posted, called and delivered so far. */
    ghost function Now(): Log
      reads this`posted, this`called, this`delivered
    {
      Log(posted, called, delivered)
    }

    /** The loop of modulebase_process_message_queue, for `turns` messages at
        most. */
    method Drain(turns: nat) returns (ghost taken: seq<Message>)
      requires QueueValid()
      modifies this`queue, this`posted, this`delivered, this`called
      ensures QueueValid() && Now() == Drained(script, callbacks, old(Now()), taken)
      ensures |taken| <= turns && (|taken| < turns ==> queue == [])
    {
      var n := 0;
      taken := [];
      DrainedNothing(script, callbacks, Now());
      while queue != [] && n < turns
        invariant 0 <= n == |taken| <= turns && QueueValid()
        invariant Now() == Drained(script, callbacks, old(Now()), taken)
        decreases turns - n
      {
        var front := DeliverFront();
        DrainStep(script, callbacks, old(Now()), taken, front);
        taken := taken + [front];
        n := n + 1;
      }
    }

    /** modulebase_process_message_queue: IDLE is dispatched only when everything
        posted before has been delivered, so that what is queued afterwards is what
        its handlers posted. It does come to that when the handlers stop posting. */
    method ProcessMessageQueue(turns: nat) returns (idle: bool, ghost taken: seq<Message>)
      requires Valid()
      modifies this`queue, this`posted, this`delivered, this`called
      ensures Valid() && (idle || (|taken| == turns && queue != []))
      ensures var log := Drained(script, callbacks, old(Now()), taken);
              if idle then
                && IDLE == Message(0x1337, 12, 12, Everybody, 0)
                && Now() == Noticed(script, callbacks, log, IDLE)
                && delivered == log.posted == log.delivered
                && queue == Posts(script, |log.called|, |Reached(callbacks, IDLE)|)
              else Now() == log
      ensures forall limit: nat :: Quiet(script, |old(called)|, limit) ==>
                idle || turns < |old(queue)| + |Posts(script, |old(called)|, limit)|
    {
      taken := Drain(turns);
      idle := queue == [];
      forall limit: nat | Quiet(script, |old(called)|, limit)
        ensures |taken| + |queue| <= |old(queue)| + |Posts(script, |old(called)|, limit)|
      {
        QuietPosts(script, |old(called)|, |Calls(callbacks, taken)|, limit);
      }
      if idle {
        assert posted == delivered;
        ghost var n := |called|;
        HandleMessage(IDLE);
        CancelLeft(delivered, queue, Posts(script, n, |Reached(callbacks, IDLE)|));
      }
    }
  }

  const IDLE := Message(IDLE_TYPE, HEADER_SIZE, HEADER_SIZE, Everybody, 0)

  function InsertAt(hs: seq<Handler>, i: nat, h: Handler): (r: seq<Handler>)
    requires i <= |hs|
    ensures |r| == |hs| + 1 && r[i] == h
    ensures forall k :: 0 <= k < i ==> r[k] == hs[k]
    ensures forall k :: i < k < |r| ==> r[k] == hs[k - 1]
  {
    hs[..i] + [h] + hs[i..]
  }

  lemma InsertKeepsSorted(hs: seq<Handler>, i: nat, h: Handler)
    requires Sorted(hs) && i <= |hs|
    requires forall k :: 0 <= k < i ==> Before(hs[k], h)
    requires i < |hs| ==> Before(h, hs[i])
    ensures Sorted(InsertAt(hs, i, h))
  {
  }

  /** A sorted list is determined by its members: the order in which modules were
      loaded and unloaded shows only in the load order of equals. */
  lemma {:induction false} SortedIsUnique(a: seq<Handler>, b: seq<Handler>)
    requires Sorted(a) && Sorted(b)
    requires forall h :: h in a <==> h in b
    ensures a == b
  {
    if a == [] {
      if b != [] { LastIsGreatest(b, b[0]); }
    } else {
      var p, q := |a| - 1, |b| - 1;
      assert a[p] in b;
      LastIsGreatest(b, a[p]);
      LastIsGreatest(a, b[q]);
      assert a[p] == b[q];
      InitMembers(a);
      InitMembers(b);
      forall h
        ensures h in a[..p] <==> h in b[..q]
      {
        assert h in a[..p] <==> h in a && h != a[p];
        assert h in b[..q] <==> h in b && h != b[q];
      }
      SortedIsUnique(a[..p], b[..q]);
      assert a == a[..p] + [a[p]] && b == b[..q] + [b[q]];
    }
  }

  lemma LastIsGreatest(hs: seq<Handler>, h: Handler)
    requires Sorted(hs) && hs != []
    ensures hs[|hs| - 1] in hs
    ensures h in hs ==> h == hs[|hs| - 1] || Before(h, hs[|hs| - 1])
  {
  }

  lemma InitMembers(hs: seq<Handler>)
    requires Sorted(hs) && hs != []
    ensures forall h :: h in hs[..|hs| - 1] <==> h in hs && h != hs[|hs| - 1]
  {
  }

  lemma InsertMembers(hs: seq<Handler>, i: nat, h: Handler)
    requires i <= |hs|
    ensures forall x :: x in InsertAt(hs, i, h) <==> x in hs || x == h
  {
  }

  lemma DrainedNothing(script: nat -> seq<Post>, hs: seq<Handler>, log: Log)
    ensures Drained(script, hs, log, []) == log
  {
  }

  lemma OneMore(hs: seq<Handler>, ms: seq<Message>, m: Message)
    ensures Calls(hs, ms + [m]) == Calls(hs, ms) + Tagged(Reached(hs, m), m)
  {
    assert (ms + [m])[..|ms|] == ms;
  }

  /** One more message taken. */
  lemma DrainStep(script: nat -> seq<Post>, hs: seq<Handler>, log: Log, taken: seq<Message>, front: Message)
    ensures var before := Drained(script, hs, log, taken);
            Drained(script, hs, log, taken + [front])
            == Noticed(script, hs, before, front).(delivered := before.delivered + [front])
  {
    var calls, more, n := Calls(hs, taken), Reached(hs, front), |log.called|;
    OneMore(hs, taken, front);
    PostsConcat(script, n, |calls|, |more|);
    Assoc(log.called, calls, Tagged(more, front));
    Assoc(log.posted, Posts(script, n, |calls|), Posts(script, n + |calls|, |more|));
    Assoc(log.delivered, taken, [front]);
  }

  lemma Assoc<T>(a: seq<T>, b: seq<T>, c: seq<T>)
    ensures (a + b) + c == a + (b + c)
  {
  }

  lemma CancelLeft<T>(a: seq<T>, b: seq<T>, c: seq<T>)
    requires a + b == a + c
    ensures b == c
  {
    assert b == (a + b)[|a|..] == (a + c)[|a|..] == c;
  }
}
