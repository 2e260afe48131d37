/** The fate of an update request between thermal objects: which requests are
    answered, which are cancelled and which wait for ever, groups of sensors and other
    waiting objects included. */
module ThermalFate {
  import opened ThermalRequests
  import opened ThermalWaiting

  // ----- chains

  /** Distinct objects, each of which depends on the next. */
  predicate Linked(sensors: seq<Sensor>, c: seq<nat>) {
    && Simple(c)
    && (forall k :: 0 <= k < |c| ==> c[k] < |sensors|)
    && (forall k :: 0 <= k < |c| - 1 ==> DependsOn(sensors, c[k], c[k + 1]))
  }

  /** No object of the chain depends on a later one than the next. */
  predicate NoShortcuts(sensors: seq<Sensor>, c: seq<nat>) {
    && (forall k :: 0 <= k < |c| ==> c[k] < |sensors|)
    && (forall k, j :: 0 <= k && k + 1 < j < |c| ==> !DependsOn(sensors, c[k], c[j]))
  }

  function Last(c: seq<nat>): nat
    requires c != []
  {
    c[|c| - 1]
  }

  function Init(c: seq<nat>): seq<nat>
    requires c != []
  {
    c[..|c| - 1]
  }

  lemma SplitLast(c: seq<nat>)
    requires Simple(c) && c != []
    ensures Last(c) in c && Simple(Init(c))
    ensures forall k :: k in Init(c) <==> k in c && k != Last(c)
  {
    assert c == Init(c) + [Last(c)];
  }

  /** A chain is linked. */
  lemma {:induction false} ChainIsLinked(sensors: seq<Sensor>, pending: seq<bool>, i: nat)
    requires |pending| == |sensors| && i < |sensors| && !pending[i]
    ensures var c := Chain(sensors, pending, i); Linked(sensors, c) && c != [] && c[0] == i
    decreases Idle(pending)
  {
    ChainIsSimple(sensors, pending, i);
    IdleDrops(pending, i);
    if PassedOn(sensors, i) {
      var p, j := pending[i := true], FirstLike(sensors, sensors[i].dependsOn.name, 0);
      var c, rest := Chain(sensors, pending, i), Chain(sensors, p, j);
      assert c == [i] + rest;
      if !p[j] {
        ChainIsLinked(sensors, p, j);
        forall k | 0 <= k < |c| - 1
          ensures DependsOn(sensors, c[k], c[k + 1])
        {
          assert k > 0 ==> DependsOn(sensors, rest[k - 1], rest[k]);
        }
      }
    }
  }

  /** A request that the last object of a chain passes on reaches one that waits
      already. */
  lemma {:induction false} ChainCloses(sensors: seq<Sensor>, pending: seq<bool>, i: nat)
    requires |pending| == |sensors| && i < |sensors| && !pending[i]
    ensures var c := Chain(sensors, pending, i);
            c != [] && (PassedOn(sensors, Last(c)) ==>
                          var j := FirstLike(sensors, sensors[Last(c)].dependsOn.name, 0);
                          pending[j] || j in c)
    decreases Idle(pending)
  {
    IdleDrops(pending, i);
    var c := Chain(sensors, pending, i);
    assert i in c;
    if PassedOn(sensors, i) {
      var p, j := pending[i := true], FirstLike(sensors, sensors[i].dependsOn.name, 0);
      var rest := Chain(sensors, p, j);
      assert c == [i] + rest;
      if !p[j] {
        ChainCloses(sensors, p, j);
        assert Last(c) == Last(rest) && forall k :: k in rest ==> k in c;
      }
    }
  }

  /** Each object of a chain is the first in the list on which the one before it
      could depend. */
  lemma {:induction false} ChainTakesFirst(sensors: seq<Sensor>, pending: seq<bool>, i: nat, k: nat)
    requires |pending| == |sensors| && i < |sensors| && k + 1 < |Chain(sensors, pending, i)|
    ensures var c := Chain(sensors, pending, i);
            sensors[c[k]].dependsOn.On? && c[k + 1] == FirstLike(sensors, sensors[c[k]].dependsOn.name, 0)
    decreases Idle(pending)
  {
    IdleDrops(pending, i);
    var p, j := pending[i := true], FirstLike(sensors, sensors[i].dependsOn.name, 0);
    var rest := Chain(sensors, p, j);
    assert Chain(sensors, pending, i) == [i] + rest;
    if k > 0 {
      ChainTakesFirst(sensors, p, j, k - 1);
    } else {
      assert rest[0] == j;
    }
  }

  // ----- what registration guarantees

  /** In the list that registration leaves, chains descend: so they have no shortcuts
      and never close into a cycle of their own. */
  lemma OrderedChain(sensors: seq<Sensor>, pending: seq<bool>, i: nat)
    requires |pending| == |sensors| && Ordered(sensors) && i < |sensors| && !pending[i]
    ensures var c := Chain(sensors, pending, i);
            && NoShortcuts(sensors, c) && c != []
            && (forall a, b :: 0 <= a < b < |c| ==> c[b] < c[a])
            && (PassedOn(sensors, Last(c)) ==> pending[FirstLike(sensors, sensors[Last(c)].dependsOn.name, 0)])
  {
    var c := Chain(sensors, pending, i);
    ChainIsLinked(sensors, pending, i);
    ChainCloses(sensors, pending, i);
    forall k | 0 <= k < |c| - 1
      ensures c[k + 1] < c[k]
    {
      ChainTakesFirst(sensors, pending, i, k);
      FirstIsEarlier(sensors, c[k]);
    }
    Descends(c);
    forall k, j | 0 <= k && k + 1 < j < |c|
      ensures !DependsOn(sensors, c[k], c[j])
    {
      ChainTakesFirst(sensors, pending, i, k);
      assert c[j] < c[k + 1];
    }
    if PassedOn(sensors, Last(c)) {
      FirstIsEarlier(sensors, Last(c));
    }
  }

  lemma FirstIsEarlier(sensors: seq<Sensor>, k: nat)
    requires Ordered(sensors) && k < |sensors| && sensors[k].dependsOn.On?
    ensures FirstLike(sensors, sensors[k].dependsOn.name, 0) < k
  {
    var j :| 0 <= j < k && DependsOn(sensors, k, j);
  }

  lemma {:induction false} Descends(c: seq<nat>)
    requires forall k :: 0 <= k < |c| - 1 ==> c[k + 1] < c[k]
    ensures forall a, b :: 0 <= a < b < |c| ==> c[b] < c[a]
  {
    if |c| > 1 {
      var init := Init(c);
      Descends(init);
      forall a, b | 0 <= a < b < |c|
        ensures c[b] < c[a]
      {
        assert a < |init| - 1 ==> init[|init| - 1] < init[a];
        assert b < |init| ==> init[b] < init[a];
      }
    }
  }

  /** A row of objects each of which is the first in the list on which the one before
      it could depend. */
  predicate Follows(sensors: seq<Sensor>, d: seq<nat>) {
    && (forall k :: 0 <= k < |d| ==> d[k] < |sensors|)
    && (forall k :: 0 <= k < |d| - 1 ==>
          sensors[d[k]].dependsOn.On? && d[k + 1] == FirstLike(sensors, sensors[d[k]].dependsOn.name, 0))
  }

  /** In a registered list such a row descends, and has no shortcuts. */
  lemma OrderedRow(sensors: seq<Sensor>, d: seq<nat>)
    requires Ordered(sensors) && Follows(sensors, d)
    ensures Linked(sensors, d) && NoShortcuts(sensors, d)
  {
    forall k | 0 <= k < |d| - 1
      ensures d[k + 1] < d[k] && DependsOn(sensors, d[k], d[k + 1])
    {
      FirstIsEarlier(sensors, d[k]);
    }
    Descends(d);
    forall k, j | 0 <= k && k + 1 < j < |d|
      ensures !DependsOn(sensors, d[k], d[j])
    {
      assert d[j] < d[k + 1];
    }
  }

  /** Nor are there shortcuts, in whatever order the list is, when no meta-sensor
      depends on several objects. */
  lemma NoGroupsNoShortcuts(sensors: seq<Sensor>, c: seq<nat>)
    requires Linked(sensors, c) && NoGroups(sensors)
    ensures NoShortcuts(sensors, c)
  {
    forall k, j | 0 <= k && k + 1 < j < |c|
      ensures !DependsOn(sensors, c[k], c[j])
    {
      assert DependsOn(sensors, c[k], c[k + 1]);
    }
  }

  // ----- one answer

  /** `x` looks the same in both. */
  predicate SameAt(s: Net, t: Net, x: nat) {
    && x < |s.pending| == |t.pending| && s.pending[x] == t.pending[x]
    && (x in s.valid <==> x in t.valid) && (x in s.notifying <==> x in t.notifying)
  }

  /** An answer leaves everybody alone who does not wait or does not depend on it. */
  lemma {:induction false} RevisitLeaves(sensors: seq<Sensor>, s: Net, changed: nat, x: nat, k: nat, r: Reads)
    requires Fits(sensors, s) && changed < |sensors| && x < |sensors| && k <= |sensors|
    requires s.pending[x] ==> !DependsOn(sensors, x, changed)
    ensures SameAt(s, Revisited(sensors, s, changed, k, r), x)
    decreases k
  {
    if k > 0 {
      RevisitLeaves(sensors, s, changed, x, k - 1, r);
    }
  }

  /** `a` looks the same until it is its turn. */
  lemma {:induction false} NotYetRevisited(sensors: seq<Sensor>, s: Net, changed: nat, a: nat, k: nat, r: Reads)
    requires Fits(sensors, s) && changed < |sensors| && a < |sensors| && k <= a
    ensures SameAt(s, Revisited(sensors, s, changed, k, r), a)
    decreases k
  {
    if k > 0 {
      NotYetRevisited(sensors, s, changed, a, k - 1, r);
    }
  }

  /** These wait, and an answer of `changed` leaves them alone: they do not depend on
      it, or one of them blocks them. */
  predicate Still(sensors: seq<Sensor>, s: Net, changed: nat, still: set<nat>)
    requires Fits(sensors, s) && changed < |sensors|
  {
    forall x :: x in still ==>
      && x < |sensors| && s.pending[x]
      && (!DependsOn(sensors, x, changed) || exists z :: z in still && z < |sensors| && Blocks(sensors, z, x))
  }

  lemma StillIsNotRevisited(sensors: seq<Sensor>, s: Net, changed: nat, still: set<nat>, x: nat)
    requires Fits(sensors, s) && changed < |sensors| && Still(sensors, s, changed, still) && x in still
    ensures !Revisits(sensors, s.pending, changed, x)
  {
    if DependsOn(sensors, x, changed) {
      var z :| z in still && z < |sensors| && Blocks(sensors, z, x);
      assert s.pending[z];
    }
  }

  lemma {:induction false} RevisitLeavesStill(sensors: seq<Sensor>, s: Net, changed: nat, still: set<nat>, k: nat,
                                              r: Reads)
    requires Fits(sensors, s) && changed < |sensors| && k <= |sensors| && Still(sensors, s, changed, still)
    ensures forall x :: x in still ==> SameAt(s, Revisited(sensors, s, changed, k, r), x)
    decreases k
  {
    if k > 0 {
      RevisitLeavesStill(sensors, s, changed, still, k - 1, r);
      var t := Revisited(sensors, s, changed, k - 1, r);
      if k - 1 in still {
        assert Still(sensors, t, changed, still);
        StillIsNotRevisited(sensors, t, changed, still, k - 1);
      }
    }
  }

  predicate StatusFor(sensors: seq<Sensor>, valid: set<nat>, a: nat)
    requires a < |sensors|
  {
    sensors[a].dependsOn.On? && HasStatus(sensors, valid, sensors[a].dependsOn.name)
  }

  /** Somebody other than `changed` waits and blocks `a`. */
  predicate Blocked(sensors: seq<Sensor>, s: Net, a: nat, changed: nat)
    requires Fits(sensors, s) && a < |sensors|
  {
    exists x :: 0 <= x < |sensors| && x != changed && s.pending[x] && Blocks(sensors, x, a)
  }

  /** What an answer has made of the waiting object `a`, which depends on it: blocked,
      it waits on; if something on which it depends has a status it has been read, and
      its callback is scheduled; and otherwise it has been cancelled. */
  predicate Visited(sensors: seq<Sensor>, s: Net, t: Net, a: nat, changed: nat, judged: set<nat>)
    requires Fits(sensors, s) && Fits(sensors, t) && a < |sensors| && changed < |sensors|
  {
    if sensors[a].name == sensors[changed].name || Blocked(sensors, s, a, changed) then SameAt(s, t, a)
    else if StatusFor(sensors, s.valid, a) then
      t.pending[a] && a in t.notifying && (a in t.valid <==> a in judged)
    else
      !t.pending[a] && (a in t.notifying <==> a in s.notifying) && a !in t.valid
  }

  /** The law of one answer: it decides on a waiting dependent by who waits and who has
      a status, provided that the sources of the dependent are left alone. */
  lemma {:induction false} RevisitDecides(sensors: seq<Sensor>, s: Net, changed: nat, a: nat, k: nat, r: Reads)
    requires Fits(sensors, s) && changed < |sensors| && a < k <= |sensors|
    requires s.pending[a] && !s.pending[changed] && DependsOn(sensors, a, changed)
    requires forall x :: 0 <= x < |sensors| && x != a && DependsOn(sensors, a, x) ==>
               SameAt(s, Revisited(sensors, s, changed, a, r), x)
    ensures Visited(sensors, s, Revisited(sensors, s, changed, k, r), a, changed, r.judged)
    decreases k
  {
    if k > a + 1 {
      RevisitDecides(sensors, s, changed, a, k - 1, r);
    } else {
      var t := Revisited(sensors, s, changed, a, r);
      NotYetRevisited(sensors, s, changed, a, a, r);
      SameSources(sensors, s, t, a, changed);
    }
  }

  lemma SameSources(sensors: seq<Sensor>, s: Net, t: Net, a: nat, changed: nat)
    requires Fits(sensors, s) && Fits(sensors, t) && a < |sensors| && sensors[a].dependsOn.On? && SameAt(s, t, a)
    requires changed < |sensors| && !s.pending[changed]
    requires forall x :: 0 <= x < |sensors| && x != a && DependsOn(sensors, a, x) ==> SameAt(s, t, x)
    ensures HavePending(sensors, t.pending, sensors[a].dependsOn.name) <==> Blocked(sensors, s, a, changed)
    ensures StatusFor(sensors, t.valid, a) <==> StatusFor(sensors, s.valid, a)
  {
    var name := sensors[a].dependsOn.name;
    forall x | 0 <= x < |sensors| && NameLike(sensors[x].name, name)
      ensures SameAt(s, t, x)
    {
      assert DependsOn(sensors, a, x);
    }
    if HavePending(sensors, t.pending, name) {
      var x :| 0 <= x < |sensors| && t.pending[x] && NameLike(sensors[x].name, name) && sensors[x].name != name;
      assert Blocks(sensors, x, a);
    }
  }

  // ----- a chain and the others

  /** Somebody in the chain depends on `x`. */
  predicate Matters(sensors: seq<Sensor>, c: seq<nat>, x: nat)
    requires x < |sensors|
  {
    exists m :: 0 <= m < |c| && c[m] < |sensors| && DependsOn(sensors, c[m], x)
  }

  /** The others that wait, as far as the chain depends on them: no answer of the chain
      gets them read, because they do not depend on it or block one another. */
  predicate Beside(sensors: seq<Sensor>, s: Net, c: seq<nat>, others: set<nat>)
    requires Fits(sensors, s)
  {
    && (forall k :: 0 <= k < |c| ==> c[k] < |sensors| && c[k] !in others)
    && (forall k :: 0 <= k < |c| ==> Still(sensors, s, c[k], others))
    && (forall x :: 0 <= x < |sensors| && s.pending[x] && x !in c && Matters(sensors, c, x) ==> x in others)
  }

  /** The chain after its last object was answered: that one does not wait any more,
      the one before it has been decided on, and the others stand as before. */
  predicate MovedOn(sensors: seq<Sensor>, s: Net, t: Net, c: seq<nat>, others: set<nat>, judged: set<nat>)
    requires Fits(sensors, s) && Fits(sensors, t) && c != [] && forall k :: 0 <= k < |c| ==> c[k] < |sensors|
  {
    var u := s.(pending := s.pending[Last(c) := false]);
    && t.polled == s.polled + {Last(c)} && SameAt(u, t, Last(c))
    && (forall x :: 0 <= x < |sensors| && t.pending[x] ==> s.pending[x])
    && (forall x :: x in others ==> SameAt(s, t, x))
    && (forall x :: 0 <= x < |sensors| ==> s.pending[x] || SameAt(s, t, x))
    && (forall k :: 0 <= k < |c| - 2 ==> SameAt(s, t, c[k]))
    && (|c| > 1 ==> Visited(sensors, u, t, c[|c| - 2], Last(c), judged))
  }

  predicate AllWait(s: Net, c: seq<nat>) {
    forall k :: 0 <= k < |c| ==> c[k] < |s.pending| && s.pending[c[k]]
  }

  lemma AnswerMovesOn(sensors: seq<Sensor>, s: Net, c: seq<nat>, others: set<nat>, r: Reads)
    requires Fits(sensors, s) && Linked(sensors, c) && NoShortcuts(sensors, c) && Beside(sensors, s, c, others)
    requires c != [] && AllWait(s, c)
    ensures MovedOn(sensors, s, Answered(sensors, s, Last(c), r), c, others, r.judged)
  {
    var u := s.(pending := s.pending[Last(c) := false], polled := s.polled + {Last(c)});
    var t := Revisited(sensors, u, Last(c), |sensors|, r);
    LastGone(sensors, s, c, others);
    RestLeftAlone(sensors, u, c, others, r);
    if |c| > 1 {
      SourcesLeftAlone(sensors, u, c, others, r);
      assert DependsOn(sensors, c[|c| - 2], c[|c| - 1]);
      RevisitDecides(sensors, u, Last(c), c[|c| - 2], |sensors|, r);
    }
    FromGone(sensors, s, u, t, c, others, r.judged);
  }

  lemma LastGone(sensors: seq<Sensor>, s: Net, c: seq<nat>, others: set<nat>)
    requires Fits(sensors, s) && Linked(sensors, c) && Beside(sensors, s, c, others) && c != [] && AllWait(s, c)
    ensures var u := s.(pending := s.pending[Last(c) := false], polled := s.polled + {Last(c)});
            Beside(sensors, u, c, others) && AllWait(u, Init(c))
  {
    var u := s.(pending := s.pending[Last(c) := false], polled := s.polled + {Last(c)});
    forall k | 0 <= k < |c|
      ensures Still(sensors, u, c[k], others)
    {
      assert Still(sensors, s, c[k], others);
    }
  }

  lemma FromGone(sensors: seq<Sensor>, s: Net, u: Net, t: Net, c: seq<nat>, others: set<nat>, judged: set<nat>)
    requires Fits(sensors, s) && Fits(sensors, t) && Linked(sensors, c) && c != [] && AllWait(s, c)
    requires u == s.(pending := s.pending[Last(c) := false], polled := s.polled + {Last(c)}) && t.polled == u.polled
    requires forall x :: x in others ==> x < |sensors| && x != Last(c) && SameAt(u, t, x)
    requires forall x :: 0 <= x < |sensors| ==> (u.pending[x] || SameAt(u, t, x)) && (t.pending[x] ==> u.pending[x])
    requires forall k :: 0 <= k < |c| - 2 ==> SameAt(u, t, c[k])
    requires |c| > 1 ==> Visited(sensors, u, t, c[|c| - 2], Last(c), judged)
    ensures MovedOn(sensors, s, t, c, others, judged)
  {
    var v := s.(pending := s.pending[Last(c) := false]);
    if |c| > 1 {
      assert Blocked(sensors, u, c[|c| - 2], Last(c)) <==> Blocked(sensors, v, c[|c| - 2], Last(c));
    }
  }

  lemma RestLeftAlone(sensors: seq<Sensor>, u: Net, c: seq<nat>, others: set<nat>, r: Reads)
    requires Fits(sensors, u) && Linked(sensors, c) && NoShortcuts(sensors, c) && c != []
    requires Beside(sensors, u, c, others) && !u.pending[Last(c)]
    ensures var t := Revisited(sensors, u, Last(c), |sensors|, r);
            && (forall x :: x in others ==> SameAt(u, t, x))
            && (forall x :: 0 <= x < |sensors| ==> u.pending[x] || SameAt(u, t, x))
            && (forall k :: 0 <= k < |c| - 2 ==> SameAt(u, t, c[k]))
  {
    var last, n := Last(c), |sensors|;
    assert Still(sensors, u, c[|c| - 1], others);
    RevisitLeavesStill(sensors, u, last, others, n, r);
    forall x | 0 <= x < n
      ensures u.pending[x] || SameAt(u, Revisited(sensors, u, last, n, r), x)
    {
      if !u.pending[x] { RevisitLeaves(sensors, u, last, x, n, r); }
    }
    forall k | 0 <= k < |c| - 2
      ensures SameAt(u, Revisited(sensors, u, last, n, r), c[k])
    {
      RevisitLeaves(sensors, u, last, c[k], n, r);
    }
  }

  /** Everything on which the object before the last depends looks the same until it
      is visited. */
  lemma SourcesLeftAlone(sensors: seq<Sensor>, u: Net, c: seq<nat>, others: set<nat>, r: Reads)
    requires Fits(sensors, u) && Linked(sensors, c) && NoShortcuts(sensors, c) && |c| > 1
    requires Beside(sensors, u, c, others) && !u.pending[Last(c)] && AllWait(u, Init(c))
    ensures var a := c[|c| - 2];
            forall x :: 0 <= x < |sensors| && x != a && DependsOn(sensors, a, x) ==>
                          SameAt(u, Revisited(sensors, u, Last(c), a, r), x)
  {
    var a, last := c[|c| - 2], Last(c);
    assert Still(sensors, u, c[|c| - 1], others);
    RevisitLeavesStill(sensors, u, last, others, a, r);
    forall x | 0 <= x < |sensors| && x != a && DependsOn(sensors, a, x)
      ensures SameAt(u, Revisited(sensors, u, last, a, r), x)
    {
      if x in c {
        var m :| 0 <= m < |c| && c[m] == x;
        RevisitLeaves(sensors, u, last, x, a, r);
      } else if u.pending[x] {
        assert Matters(sensors, c, x);
      } else {
        RevisitLeaves(sensors, u, last, x, a, r);
      }
    }
  }

  // ----- the callbacks

  /** The callbacks of a chain, last object first; callback number k happens during
      `rs[k]`. Those that are not scheduled do nothing. */
  function Callbacks(sensors: seq<Sensor>, s: Net, c: seq<nat>, rs: seq<Reads>): (t: Net)
    requires Fits(sensors, s) && |rs| >= |c| && forall k :: 0 <= k < |c| ==> c[k] < |sensors|
    ensures Fits(sensors, t)
    decreases |c|
  {
    if c == [] then s else Callbacks(sensors, Notified(sensors, s, Last(c), rs[0]), Init(c), rs[1..])
  }

  lemma {:induction false} QuietCallbacks(sensors: seq<Sensor>, s: Net, c: seq<nat>, rs: seq<Reads>)
    requires Fits(sensors, s) && |rs| >= |c| && (forall k :: 0 <= k < |c| ==> c[k] < |sensors|)
    requires forall k :: 0 <= k < |c| ==> c[k] !in s.notifying
    ensures Callbacks(sensors, s, c, rs) == s
    decreases |c|
  {
    if c != [] {
      QuietCallbacks(sensors, s, Init(c), rs[1..]);
    }
  }

  /** An answer travels down the chain: whenever the last object of what is left
      answers, nobody who waits blocks the one before it, and something on which that
      one depends has a status. A read during `rs[0]` sets the status of what it
      reads. */
  predicate AnswerTravels(sensors: seq<Sensor>, s: Net, c: seq<nat>, rs: seq<Reads>)
    requires Fits(sensors, s) && |rs| >= |c| && forall k :: 0 <= k < |c| ==> c[k] < |sensors|
    decreases |c|
  {
    |c| <= 1 ||
    (var a := c[|c| - 2];
     && sensors[a].name != sensors[Last(c)].name
     && !Blocked(sensors, s, a, Last(c))
     && StatusFor(sensors, s.valid, a)
     && AnswerTravels(sensors, AfterVisit(s, c, rs[0].judged), Init(c), rs[1..]))
  }

  /** The last object has answered and the one before it has been read. */
  function AfterVisit(s: Net, c: seq<nat>, judged: set<nat>): Net
    requires |c| > 1 && forall k :: 0 <= k < |c| ==> c[k] < |s.pending|
  {
    var a := c[|c| - 2];
    s.(pending := s.pending[Last(c) := false], valid := if a in judged then s.valid + {a} else s.valid - {a})
  }

  /** What AnswerTravels looks at: who waits and has a status among those that matter
      to the chain. */
  predicate Agree(sensors: seq<Sensor>, s: Net, t: Net, c: seq<nat>)
    requires Fits(sensors, s) && Fits(sensors, t) && c != []
  {
    forall x :: 0 <= x < |sensors| && Matters(sensors, c, x) ==>
                  && (x != Last(c) ==> s.pending[x] == t.pending[x])
                  && (x in s.valid <==> x in t.valid)
  }

  lemma {:induction false} TravelsAgree(sensors: seq<Sensor>, s: Net, t: Net, c: seq<nat>, rs: seq<Reads>)
    requires Fits(sensors, s) && Fits(sensors, t) && |rs| >= |c| > 0 && Agree(sensors, s, t, c)
    requires forall k :: 0 <= k < |c| ==> c[k] < |sensors|
    ensures AnswerTravels(sensors, s, c, rs) <==> AnswerTravels(sensors, t, c, rs)
    decreases |c|
  {
    if |c| > 1 {
      LooksAgree(sensors, s, t, c);
      var s', t' := AfterVisit(s, c, rs[0].judged), AfterVisit(t, c, rs[0].judged);
      forall x | 0 <= x < |sensors| && Matters(sensors, Init(c), x)
        ensures (x != Last(Init(c)) ==> s'.pending[x] == t'.pending[x]) && (x in s'.valid <==> x in t'.valid)
      {
        MattersMore(sensors, c, x);
      }
      TravelsAgree(sensors, s', t', Init(c), rs[1..]);
    }
  }

  lemma LooksAgree(sensors: seq<Sensor>, s: Net, t: Net, c: seq<nat>)
    requires Fits(sensors, s) && Fits(sensors, t) && |c| > 1 && Agree(sensors, s, t, c)
    requires forall k :: 0 <= k < |c| ==> c[k] < |sensors|
    ensures Blocked(sensors, s, c[|c| - 2], Last(c)) <==> Blocked(sensors, t, c[|c| - 2], Last(c))
    ensures StatusFor(sensors, s.valid, c[|c| - 2]) <==> StatusFor(sensors, t.valid, c[|c| - 2])
  {
    var a := c[|c| - 2];
    forall x | 0 <= x < |sensors| && DependsOn(sensors, a, x)
      ensures (x != Last(c) ==> s.pending[x] == t.pending[x]) && (x in s.valid <==> x in t.valid)
    {
      assert Matters(sensors, c, x);
    }
    if sensors[a].dependsOn.On? {
      assert forall x :: 0 <= x < |sensors| && NameLike(sensors[x].name, sensors[a].dependsOn.name) ==>
                           DependsOn(sensors, a, x);
    }
  }

  lemma MattersMore(sensors: seq<Sensor>, c: seq<nat>, x: nat)
    requires c != [] && x < |sensors| && Matters(sensors, Init(c), x)
    ensures Matters(sensors, c, x)
  {
    var m :| 0 <= m < |Init(c)| && Init(c)[m] < |sensors| && DependsOn(sensors, Init(c)[m], x);
    assert c[m] == Init(c)[m];
  }

  /** The chain waits, and of its callbacks just the last object's is scheduled. */
  predicate OnItsWay(s: Net, c: seq<nat>) {
    && c != [] && AllWait(s, c) && Last(c) in s.notifying
    && forall k :: 0 <= k < |c| - 1 ==> c[k] !in s.notifying
  }

  lemma ShorterChain(sensors: seq<Sensor>, c: seq<nat>)
    requires Linked(sensors, c) && NoShortcuts(sensors, c) && c != []
    ensures Linked(sensors, Init(c)) && NoShortcuts(sensors, Init(c))
  {
    var init := Init(c);
    forall k | 0 <= k < |init| - 1
      ensures DependsOn(sensors, init[k], init[k + 1])
    {
      assert DependsOn(sensors, c[k], c[k + 1]);
    }
    forall k, j | 0 <= k && k + 1 < j < |init|
      ensures !DependsOn(sensors, init[k], init[j])
    {
      assert !DependsOn(sensors, c[k], c[j]);
    }
  }

  /** What stood beside the chain stands beside the rest of it. */
  lemma StillBeside(sensors: seq<Sensor>, s: Net, t: Net, c: seq<nat>, others: set<nat>, judged: set<nat>)
    requires Fits(sensors, s) && Fits(sensors, t) && Linked(sensors, c) && Beside(sensors, s, c, others)
    requires c != [] && AllWait(s, c) && MovedOn(sensors, s, t, c, others, judged)
    ensures Beside(sensors, t, Init(c), others)
  {
    var init := Init(c);
    forall k | 0 <= k < |init|
      ensures Still(sensors, t, init[k], others)
    {
      assert Still(sensors, s, c[k], others);
    }
    SplitLast(c);
    forall x | 0 <= x < |sensors| && t.pending[x] && x !in init && Matters(sensors, init, x)
      ensures x in others
    {
      MattersMore(sensors, c, x);
      assert x != Last(c);
    }
  }

  /** The callbacks reach the first object if and only if the answer travels. */
  lemma {:induction false} CallbacksAnswer(sensors: seq<Sensor>, s: Net, c: seq<nat>, others: set<nat>, rs: seq<Reads>)
    requires Fits(sensors, s) && Linked(sensors, c) && NoShortcuts(sensors, c) && Beside(sensors, s, c, others)
    requires |rs| >= |c| && OnItsWay(s, c) && c[0] !in s.polled
    ensures c[0] in Callbacks(sensors, s, c, rs).polled <==> AnswerTravels(sensors, s, c, rs)
    decreases |c|
  {
    var u := s.(notifying := s.notifying - {Last(c)});
    SameBeside(sensors, s, u, c, others);
    AnswerMovesOn(sensors, u, c, others, rs[0]);
    AfterAnswer(sensors, u, Notified(sensors, s, Last(c), rs[0]), c, others, rs, rs[0]);
    assert [rs[0]] + rs[1..] == rs;
    TravelsAgree(sensors, s, u, c, rs);
  }

  /** The same from the moment on when the last object has been answered, during `r`. */
  lemma {:induction false} AfterAnswer(sensors: seq<Sensor>, s: Net, t: Net, c: seq<nat>, others: set<nat>,
                                       rs: seq<Reads>, r: Reads)
    requires Fits(sensors, s) && Fits(sensors, t) && Linked(sensors, c) && NoShortcuts(sensors, c)
    requires Beside(sensors, s, c, others) && c != [] && |rs| >= |c| && c[0] !in s.polled && AllWait(s, c)
    requires forall k :: 0 <= k < |c| ==> c[k] !in s.notifying
    requires MovedOn(sensors, s, t, c, others, r.judged)
    ensures c[0] in Callbacks(sensors, t, Init(c), rs[1..]).polled <==>
            AnswerTravels(sensors, s, c, [r] + rs[1..])
    decreases |c|, 0
  {
    var init := Init(c);
    ShorterChain(sensors, c);
    StillBeside(sensors, s, t, c, others, r.judged);
    assert ([r] + rs[1..])[1..] == rs[1..];
    if |c| > 1 && VisitReads(sensors, s, c) {
      VisitOnItsWay(sensors, s, t, c, others, r.judged);
      CallbacksAnswer(sensors, t, init, others, rs[1..]);
      TravelsAgree(sensors, AfterVisit(s, c, r.judged), t, init, rs[1..]);
    } else {
      QuietCallbacks(sensors, t, init, rs[1..]);
    }
  }

  /** The object before the last is read. */
  predicate VisitReads(sensors: seq<Sensor>, s: Net, c: seq<nat>)
    requires Fits(sensors, s) && |c| > 1 && forall k :: 0 <= k < |c| ==> c[k] < |sensors|
  {
    var a := c[|c| - 2];
    && sensors[a].name != sensors[Last(c)].name && !Blocked(sensors, s, a, Last(c))
    && StatusFor(sensors, s.valid, a)
  }

  lemma VisitOnItsWay(sensors: seq<Sensor>, s: Net, t: Net, c: seq<nat>, others: set<nat>, judged: set<nat>)
    requires Fits(sensors, s) && Fits(sensors, t) && Linked(sensors, c) && |c| > 1 && AllWait(s, c)
    requires Beside(sensors, s, c, others) && (forall k :: 0 <= k < |c| ==> c[k] !in s.notifying)
    requires VisitReads(sensors, s, c) && MovedOn(sensors, s, t, c, others, judged)
    ensures OnItsWay(t, Init(c)) && Agree(sensors, AfterVisit(s, c, judged), t, Init(c))
  {
    var init := Init(c);
    VisitWasRead(sensors, s, t, c, others, judged);
    forall k | 0 <= k < |init| - 1
      ensures t.pending[init[k]] && init[k] !in t.notifying
    {
      assert SameAt(s, t, c[k]);
    }
    forall x | 0 <= x < |sensors| && Matters(sensors, init, x)
      ensures var u := AfterVisit(s, c, judged);
              (x != Last(init) ==> u.pending[x] == t.pending[x]) && (x in u.valid <==> x in t.valid)
    {
      MattersMore(sensors, c, x);
      VisitAgreesAt(sensors, s, t, c, others, judged, x);
    }
  }

  lemma VisitWasRead(sensors: seq<Sensor>, s: Net, t: Net, c: seq<nat>, others: set<nat>, judged: set<nat>)
    requires Fits(sensors, s) && Fits(sensors, t) && Linked(sensors, c) && |c| > 1
    requires VisitReads(sensors, s, c) && MovedOn(sensors, s, t, c, others, judged)
    ensures var a := c[|c| - 2]; t.pending[a] && a in t.notifying && (a in t.valid <==> a in judged)
  {
    SameBlocks(sensors, s, c[|c| - 2], Last(c));
  }

  lemma SameBlocks(sensors: seq<Sensor>, s: Net, a: nat, changed: nat)
    requires Fits(sensors, s) && a < |sensors| && changed < |sensors|
    ensures var u := s.(pending := s.pending[changed := false]);
            Blocked(sensors, u, a, changed) <==> Blocked(sensors, s, a, changed)
  {
    var u := s.(pending := s.pending[changed := false]);
    assert forall x :: 0 <= x < |sensors| && x != changed ==> u.pending[x] == s.pending[x];
  }

  lemma VisitAgreesAt(sensors: seq<Sensor>, s: Net, t: Net, c: seq<nat>, others: set<nat>, judged: set<nat>, x: nat)
    requires Fits(sensors, s) && Fits(sensors, t) && Linked(sensors, c) && |c| > 1 && x < |sensors|
    requires Beside(sensors, s, c, others) && VisitReads(sensors, s, c) && Matters(sensors, c, x)
    requires MovedOn(sensors, s, t, c, others, judged)
    ensures var u := AfterVisit(s, c, judged);
            (x != c[|c| - 2] ==> u.pending[x] == t.pending[x]) && (x in u.valid <==> x in t.valid)
  {
    VisitWasRead(sensors, s, t, c, others, judged);
    if x in c {
      var m :| 0 <= m < |c| && c[m] == x;
      assert m < |c| - 2 ==> SameAt(s, t, c[m]);
    } else {
      assert s.pending[x] ==> x in others;
      assert SameAt(s, t, x);
    }
  }

  // ----- the request

  /** A real sensor that can be read. */
  predicate Starts(sensors: seq<Sensor>, i: nat, r: Reads)
    requires i < |sensors|
  {
    sensors[i].dependsOn.Real? && i in r.readable
  }

  /** The end of the chain has been reached: a real sensor that can be read gets a
      status, or none, and one that cannot loses its own. */
  function AtEnd(sensors: seq<Sensor>, s: Net, c: seq<nat>, r: Reads): (t: Net)
    requires Fits(sensors, s) && c != [] && forall k :: 0 <= k < |c| ==> c[k] < |sensors|
    ensures Fits(sensors, t)
  {
    var last := Last(c);
    var marked := Marks(s, c);
    if sensors[last].dependsOn.On? then marked
    else if last in r.readable && last in r.judged then marked.(valid := s.valid + {last})
    else marked.(valid := s.valid - {last})
  }

  /** The fate of a request, by the last object of its chain. All of the chain waits;
      when the last one passes the request on, nothing is scheduled; when it is a real
      sensor that can be read, its callback is scheduled; and otherwise it is answered
      at once. */
  lemma RequestFate(sensors: seq<Sensor>, s: Net, i: nat, r: Reads)
    requires Fits(sensors, s) && i < |sensors| && !s.pending[i]
    ensures var c := Chain(sensors, s.pending, i); var t := Requested(sensors, s, i, r);
            && Linked(sensors, c) && c != [] && c[0] == i && AllWait(Marks(s, c), c)
            && (PassedOn(sensors, Last(c)) ==> t == Marks(s, c))
            && (Starts(sensors, Last(c), r) ==> t == AtEnd(sensors, s, c, r).(notifying := s.notifying + {Last(c)}))
            && (!PassedOn(sensors, Last(c)) && !Starts(sensors, Last(c), r) ==>
                  && t == Answered(sensors, AtEnd(sensors, s, c, r), Last(c), r)
                  && !t.pending[Last(c)] && Last(c) in t.polled)
  {
    ChainIsLinked(sensors, s.pending, i);
    RequestFollowsChain(sensors, s, i, r);
    var c := Chain(sensors, s.pending, i);
    assert forall k :: 0 <= k < |c| ==> c[k] in c;
    SplitLast(c);
  }

  /** So the objects of a chain are stuck if and only if its last one passes the
      request on, no callback of theirs is left over, and they all hold one another. */
  lemma StuckIffPassedOn(sensors: seq<Sensor>, s: Net, i: nat, r: Reads)
    requires Fits(sensors, s) && i < |sensors| && !s.pending[i]
    ensures var c := Chain(sensors, s.pending, i); var group := set k | k in c;
            c != [] && (Stuck(sensors, Requested(sensors, s, i, r), group) <==>
                        && PassedOn(sensors, Last(c))
                        && forall k :: k in c ==> k !in s.notifying && Held(sensors, k, group))
  {
    RequestFate(sensors, s, i, r);
    SplitLast(Chain(sensors, s.pending, i));
  }

  /** The chain does not pass the request on at its end, and from there the answer
      travels to its first object. */
  predicate AnswerComes(sensors: seq<Sensor>, s: Net, c: seq<nat>, r: Reads, rs: seq<Reads>)
    requires Fits(sensors, s) && c != [] && |rs| >= |c| && forall k :: 0 <= k < |c| ==> c[k] < |sensors|
  {
    && !PassedOn(sensors, Last(c))
    && AnswerTravels(sensors, AtEnd(sensors, s, c, r), c, if Starts(sensors, Last(c), r) then rs else [r] + rs[1..])
  }

  /** Which requests are followed by an answer, when the chain does not reach an object
      that waits already. The documentation promises it of every request; it holds
      exactly when AnswerComes. */
  lemma RequestIsAnswered(sensors: seq<Sensor>, s: Net, i: nat, others: set<nat>, r: Reads, rs: seq<Reads>)
    requires Fits(sensors, s) && i < |sensors| && !s.pending[i] && i !in s.polled
    requires var c := Chain(sensors, s.pending, i);
             && NoShortcuts(sensors, c) && Beside(sensors, Marks(s, c), c, others)
             && (forall k :: k in c ==> k !in s.notifying)
             && |rs| >= |c| > 0
    ensures var c := Chain(sensors, s.pending, i);
            i in Callbacks(sensors, Requested(sensors, s, i, r), c, rs).polled <==> AnswerComes(sensors, s, c, r, rs)
  {
    RequestFate(sensors, s, i, r);
    var c := Chain(sensors, s.pending, i);
    var t, u := Requested(sensors, s, i, r), AtEnd(sensors, s, c, r);
    assert forall k :: 0 <= k < |c| ==> c[k] in c;
    SameBeside(sensors, Marks(s, c), u, c, others);
    if Starts(sensors, Last(c), r) {
      AnsweredLater(sensors, u, t, c, others, rs);
    } else if PassedOn(sensors, Last(c)) {
      QuietCallbacks(sensors, t, c, rs);
    } else {
      AnsweredAtOnce(sensors, u, c, others, r, rs);
    }
  }

  /** The callback of the last object of the chain has been scheduled. */
  lemma AnsweredLater(sensors: seq<Sensor>, s: Net, t: Net, c: seq<nat>, others: set<nat>, rs: seq<Reads>)
    requires Fits(sensors, s) && Linked(sensors, c) && NoShortcuts(sensors, c) && Beside(sensors, s, c, others)
    requires c != [] && AllWait(s, c) && |rs| >= |c| && c[0] !in s.polled
    requires forall k :: 0 <= k < |c| ==> c[k] !in s.notifying
    requires t == s.(notifying := s.notifying + {Last(c)})
    ensures c[0] in Callbacks(sensors, t, c, rs).polled <==> AnswerTravels(sensors, s, c, rs)
  {
    SameBeside(sensors, s, t, c, others);
    CallbacksAnswer(sensors, t, c, others, rs);
    TravelsAgree(sensors, s, t, c, rs);
  }

  /** The last object of the chain is answered within the request. */
  lemma AnsweredAtOnce(sensors: seq<Sensor>, s: Net, c: seq<nat>, others: set<nat>, r: Reads, rs: seq<Reads>)
    requires Fits(sensors, s) && Linked(sensors, c) && NoShortcuts(sensors, c) && Beside(sensors, s, c, others)
    requires c != [] && AllWait(s, c) && |rs| >= |c| && c[0] !in s.polled
    requires forall k :: 0 <= k < |c| ==> c[k] !in s.notifying
    ensures c[0] in Callbacks(sensors, Answered(sensors, s, Last(c), r), c, rs).polled <==>
            AnswerTravels(sensors, s, c, [r] + rs[1..])
  {
    var t := Answered(sensors, s, Last(c), r);
    AnswerMovesOn(sensors, s, c, others, r);
    assert Last(c) !in t.notifying;
    AfterAnswer(sensors, s, t, c, others, rs, r);
  }

  lemma SameBeside(sensors: seq<Sensor>, s: Net, t: Net, c: seq<nat>, others: set<nat>)
    requires Fits(sensors, s) && Fits(sensors, t) && Beside(sensors, s, c, others) && s.pending == t.pending
    ensures Beside(sensors, t, c, others)
  {
    forall k | 0 <= k < |c|
      ensures Still(sensors, t, c[k], others)
    {
      assert Still(sensors, s, c[k], others);
    }
  }

  /** The other case: the chain reaches an object that waits already, and from there a
      row of waiting objects, `rest`, leads to one whose callback is scheduled. The
      request joins that row, and is answered if and only if the answer travels. */
  lemma JoinedIsAnswered(sensors: seq<Sensor>, s: Net, i: nat, rest: seq<nat>, others: set<nat>, r: Reads,
                         rs: seq<Reads>)
    requires Fits(sensors, s) && i < |sensors| && !s.pending[i] && i !in s.polled && OnItsWay(s, rest)
    requires var c := Chain(sensors, s.pending, i); var d := c + rest;
             && c != [] && PassedOn(sensors, Last(c)) && (forall k :: k in c ==> k !in s.notifying)
             && Linked(sensors, d) && NoShortcuts(sensors, d) && Beside(sensors, Marks(s, c), d, others)
             && |rs| >= |d|
    ensures var c := Chain(sensors, s.pending, i); var d := c + rest;
            i in Callbacks(sensors, Requested(sensors, s, i, r), d, rs).polled <==>
            AnswerTravels(sensors, Marks(s, c), d, rs)
  {
    RequestFate(sensors, s, i, r);
    var c := Chain(sensors, s.pending, i);
    var d, t := c + rest, Marks(s, c);
    forall k | 0 <= k < |d|
      ensures t.pending[d[k]] && (k < |d| - 1 ==> d[k] !in t.notifying)
    {
      assert k < |c| ==> c[k] in c;
    }
    assert Last(d) == Last(rest);
    CallbacksAnswer(sensors, t, d, others, rs);
  }

  /** Both cases in a registered list, where nothing but the others beside the chain
      needs to be known: rows descend, have no shortcuts and never close. */
  lemma RegisteredIsAnswered(sensors: seq<Sensor>, s: Net, i: nat, rest: seq<nat>, others: set<nat>, r: Reads,
                             rs: seq<Reads>)
    requires Fits(sensors, s) && Ordered(sensors) && i < |sensors| && !s.pending[i] && i !in s.polled
    requires rest == [] || OnItsWay(s, rest)
    requires var c := Chain(sensors, s.pending, i); var d := c + rest;
             && Follows(sensors, d) && Beside(sensors, Marks(s, c), d, others)
             && (forall k :: k in c ==> k !in s.notifying) && |rs| >= |d| > 0
    ensures var c := Chain(sensors, s.pending, i); var d := c + rest;
            && c != []
            && (i in Callbacks(sensors, Requested(sensors, s, i, r), d, rs).polled <==>
                if rest == [] then AnswerComes(sensors, s, c, r, rs) else AnswerTravels(sensors, Marks(s, c), d, rs))
  {
    var c := Chain(sensors, s.pending, i);
    var d := c + rest;
    OrderedRow(sensors, d);
    ChainIsLinked(sensors, s.pending, i);
    if rest == [] {
      assert d == c;
      RequestIsAnswered(sensors, s, i, others, r, rs);
    } else {
      assert d[|c| - 1] == Last(c) && d[|c|] == rest[0];
      JoinedIsAnswered(sensors, s, i, rest, others, r, rs);
    }
  }

  // ----- waiting for ever

  /** Somebody in the group blocks somebody in it. */
  predicate BlocksItself(sensors: seq<Sensor>, group: set<nat>) {
    exists b, k :: b in group && k in group && b < |sensors| && k < |sensors| && Blocks(sensors, b, k)
  }

  /** In the list that registration leaves, objects can only get stuck through a
      group: one of them blocks one that could have been read. */
  lemma StuckNeedsGroup(sensors: seq<Sensor>, s: Net, group: set<nat>)
    requires Fits(sensors, s)
    ensures Ordered(sensors) && Stuck(sensors, s, group) && group != {} ==> BlocksItself(sensors, group)
  {
    if Ordered(sensors) && Stuck(sensors, s, group) && group != {} {
      var m :| m in group;
      BlockedBelow(sensors, s, group, m);
    }
  }

  lemma {:induction false} BlockedBelow(sensors: seq<Sensor>, s: Net, group: set<nat>, m: nat)
    requires Fits(sensors, s) && m in group
    ensures Ordered(sensors) && Stuck(sensors, s, group) ==> BlocksItself(sensors, group)
    decreases m
  {
    if Ordered(sensors) && Stuck(sensors, s, group) && !BlocksItself(sensors, group) {
      assert Held(sensors, m, group);
      var j :| 0 <= j < m && DependsOn(sensors, m, j);
      BlockedBelow(sensors, s, group, j);
    }
  }

  predicate OfSensors(run: seq<Event>, n: nat) {
    forall e :: e in run ==> e.i < n
  }

  /** A list that can be registered and breaks the promise: `core1` depends on the
      group "core", to which it belongs itself. It waits for ever after its first
      request, although `core0` can be read at any time. */
  lemma TwoSensors(sensors: seq<Sensor>, s: Net, r: Reads, run: seq<Event>)
    requires sensors == [Sensor("core0", Real), Sensor("core1", On("core"))] && OfSensors(run, 2)
    requires s.pending == [false, false] && s.notifying == {}
    ensures Ordered(sensors) && Stuck(sensors, RunNet(sensors, Requested(sensors, s, 1, r), run), {1})
  {
    CoreNames();
    assert DependsOn(sensors, 1, 0) && Blocks(sensors, 1, 1);
    OwnGroupSticks(sensors, s, 1, r);
    StuckForEver(sensors, Requested(sensors, s, 1, r), run, {1});
  }

  /** Another one is a cycle through a group: `x` depends on "core" and `core1` on
      `x`. Both wait for ever after the first request of `core1`. */
  lemma GroupCycle(sensors: seq<Sensor>, s: Net, r: Reads, run: seq<Event>)
    requires sensors == [Sensor("core0", Real), Sensor("x", On("core")), Sensor("core1", On("x"))]
    requires OfSensors(run, 3) && s.pending == [false, false, false] && s.notifying == {}
    ensures Ordered(sensors) && Stuck(sensors, RunNet(sensors, Requested(sensors, s, 2, r), run), {1, 2})
  {
    CoreNames();
    assert DependsOn(sensors, 1, 0) && DependsOn(sensors, 2, 1) && Blocks(sensors, 2, 1);
    assert FirstLike(sensors, "x", 0) == 1 && FirstLike(sensors, "core", 0) == 0;
    var one := Asked(s, 2);
    var both := Asked(one, 1);
    assert Held(sensors, 1, {1, 2}) && Held(sensors, 2, {1, 2}) && Stuck(sensors, both, {1, 2});
    assert Requested(sensors, s, 2, r) == Requested(sensors, one, 1, r) == Requested(sensors, both, 0, r);
    RequestKeepsStuck(sensors, both, 0, r, {1, 2});
    StuckForEver(sensors, Requested(sensors, s, 2, r), run, {1, 2});
  }

  lemma CoreNames()
    ensures NameLike("core0", "core") && NameLike("core1", "core") && NameLike("x", "x")
    ensures !NameLike("core0", "x") && !NameLike("core1", "x") && !NameLike("x", "core") && !NameLike("m", "core")
  {
    assert "core0"[..4] == "core" && "core1"[..4] == "core" && "x"[..1] == "x";
    assert "core0"[0] != 'x' && "core1"[0] != 'x';
  }

  /** The waiting object `core1` of such a list locks out others: a meta-sensor `m` on
      "core" waits for ever after its request, although nothing is passed on at the end
      of its chain and `core0` can be read. */
  lemma LockedOut(sensors: seq<Sensor>, s: Net, r: Reads, run: seq<Event>)
    requires sensors == [Sensor("core0", Real), Sensor("core1", On("core")), Sensor("m", On("core"))]
    requires OfSensors(run, 3) && s.pending == [false, true, false] && 1 !in s.notifying && 2 !in s.notifying
    ensures Ordered(sensors) && Chain(sensors, s.pending, 2) == [2, 0] && !PassedOn(sensors, 0)
    ensures Stuck(sensors, RunNet(sensors, Requested(sensors, s, 2, r), run), {1, 2})
  {
    CoreNames();
    assert DependsOn(sensors, 1, 0) && DependsOn(sensors, 2, 0);
    assert Blocks(sensors, 1, 1) && Blocks(sensors, 1, 2);
    assert FirstLike(sensors, "core", 0) == 0;
    var one := Asked(s, 2);
    assert Chain(sensors, one.pending, 0) == [0];
    assert Held(sensors, 1, {1, 2}) && Held(sensors, 2, {1, 2}) && Stuck(sensors, one, {1, 2});
    assert Requested(sensors, s, 2, r) == Requested(sensors, one, 0, r);
    RequestKeepsStuck(sensors, one, 0, r, {1, 2});
    StuckForEver(sensors, Requested(sensors, s, 2, r), run, {1, 2});
  }

  /** At start-up a meta-sensor is first requested while its source still waits. It
      joins the source, and is answered after the callback of the source if and only if
      the source has a status by then. */
  lemma StartUp(sensors: seq<Sensor>, s: Net, r: Reads, rs: seq<Reads>)
    requires sensors == [Sensor("b", Real), Sensor("m", On("b"))] && |rs| >= 2
    requires s.pending == [true, false] && s.notifying == {0} && s.polled == {}
    ensures 1 in Callbacks(sensors, Requested(sensors, s, 1, r), [1, 0], rs).polled <==> 0 in s.valid
  {
    var t := Marks(s, [1]);
    StartUpChain(sensors, s);
    assert [1] + [0] == [1, 0];
    JoinedIsAnswered(sensors, s, 1, [0], {}, r, rs);
    StartUpTravels(sensors, t, rs);
  }

  lemma StartUpChain(sensors: seq<Sensor>, s: Net)
    requires sensors == [Sensor("b", Real), Sensor("m", On("b"))] && s.pending == [true, false] && s.notifying == {0}
    ensures Chain(sensors, s.pending, 1) == [1] && PassedOn(sensors, 1) && OnItsWay(s, [0])
    ensures Linked(sensors, [1, 0]) && NoShortcuts(sensors, [1, 0]) && Beside(sensors, Marks(s, [1]), [1, 0], {})
  {
    StartUpNames();
    assert DependsOn(sensors, 1, 0);
    assert FirstLike(sensors, "b", 0) == 0;
  }

  lemma StartUpTravels(sensors: seq<Sensor>, t: Net, rs: seq<Reads>)
    requires sensors == [Sensor("b", Real), Sensor("m", On("b"))] && |rs| >= 2 && Fits(sensors, t)
    ensures AnswerTravels(sensors, t, [1, 0], rs) <==> 0 in t.valid
  {
    StartUpNames();
    var d: seq<nat> := [1, 0];
    assert !Blocked(sensors, t, 1, 0);
    assert StatusFor(sensors, t.valid, 1) <==> 0 in t.valid;
    assert Init(d) == [1];
  }

  lemma StartUpNames()
    ensures NameLike("b", "b") && !NameLike("m", "b")
  {
    assert "b"[..1] == "b" && "m"[0] != 'b';
  }

  /** A list that breaks the promise without groups: `a` depends on `b`, `b` on `c`,
      and `c` cannot be read. `c` is answered and `b` is cancelled, but nobody tells
      `a`, which goes on waiting - for ever, when `b` has no poll of its own left. */
  lemma ThreeSensors(sensors: seq<Sensor>, s: Net, r: Reads, run: seq<Event>)
    requires sensors == [Sensor("c", Real), Sensor("b", On("c")), Sensor("a", On("b"))]
    requires s.pending == [false, false, false] && s.notifying == {} && s.polled <= {0} && r.readable == {}
    requires NoFreeRequests(run, 3)
    ensures Ordered(sensors)
    ensures var t := Requested(sensors, s, 2, r); t.pending == [false, false, true] && t.polled == {0}
    ensures var t := RunNet(sensors, Requested(sensors, s, 2, r), run);
            t.pending[2] && !t.pending[1] && 1 !in t.polled && 2 !in t.polled
  {
    ThreeRequest(sensors, s, r);
    var t := Requested(sensors, s, 2, r);
    ThreeNames();
    assert HeldBy(sensors, t, 2, {1, 2}) && Shut(sensors, t, {1, 2}) && Unasked(sensors, {1, 2});
    AbandonedForEver(sensors, t, run, {1, 2});
  }

  lemma ThreeRequest(sensors: seq<Sensor>, s: Net, r: Reads)
    requires sensors == [Sensor("c", Real), Sensor("b", On("c")), Sensor("a", On("b"))]
    requires s.pending == [false, false, false] && s.notifying == {} && s.polled <= {0} && r.readable == {}
    ensures Ordered(sensors)
    ensures var t := Requested(sensors, s, 2, r);
            && t.pending == [false, false, true] && t.polled == {0}
            && 1 !in t.notifying && 2 !in t.notifying
  {
    ThreeChain(sensors, s.pending);
    OrderedChain(sensors, s.pending, 2);
    RequestFate(sensors, s, 2, r);
    var c := Chain(sensors, s.pending, 2);
    var u := AtEnd(sensors, s, c, r);
    assert u.pending == [true, true, true] && Beside(sensors, u, c, {});
    AnswerMovesOn(sensors, u, c, {}, r);
    ThreeEnd(sensors, u, Requested(sensors, s, 2, r), r.judged);
  }

  lemma ThreeEnd(sensors: seq<Sensor>, s: Net, t: Net, judged: set<nat>)
    requires sensors == [Sensor("c", Real), Sensor("b", On("c")), Sensor("a", On("b"))]
    requires Fits(sensors, s) && Fits(sensors, t) && s.pending == [true, true, true] && s.notifying == {}
    requires 0 !in s.valid && s.polled <= {0} && MovedOn(sensors, s, t, [2, 1, 0], {}, judged)
    ensures t.pending == [false, false, true] && t.polled == {0} && 1 !in t.notifying && 2 !in t.notifying
  {
    var c: seq<nat> := [2, 1, 0];
    ThreeNames();
    var u := s.(pending := s.pending[0 := false]);
    assert SameAt(s, t, c[0]) && !Blocked(sensors, u, 1, 0) && !StatusFor(sensors, s.valid, 1);
  }

  lemma ThreeChain(sensors: seq<Sensor>, pending: seq<bool>)
    requires sensors == [Sensor("c", Real), Sensor("b", On("c")), Sensor("a", On("b"))]
    requires pending == [false, false, false]
    ensures Ordered(sensors) && Chain(sensors, pending, 2) == [2, 1, 0]
  {
    ThreeNames();
    assert DependsOn(sensors, 1, 0) && DependsOn(sensors, 2, 1);
    assert FirstLike(sensors, "b", 0) == 1 && FirstLike(sensors, "c", 0) == 0;
    var p := pending[2 := true];
    var q := p[1 := true];
    assert Chain(sensors, q, 0) == [0];
    assert Chain(sensors, p, 1) == [1, 0];
  }

  lemma ThreeNames()
    ensures NameLike("b", "b") && NameLike("c", "c")
    ensures !NameLike("a", "b") && !NameLike("c", "b") && !NameLike("a", "c") && !NameLike("b", "c")
  {
    assert "b"[..1] == "b" && "c"[..1] == "c" && "a"[..1] == "a";
    assert "a"[0] != "b"[0] && "c"[0] != "b"[0] && "a"[0] != "c"[0];
  }
}
