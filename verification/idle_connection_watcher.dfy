/**
 The idle-connection watcher of the connection pool: a registry of pool
 entries and the periodic sweep that closes connections left idle longer than
 the idle timeout, as long as the pool's floor check allows it.

 One sweep is modelled as a sequential pass at a fixed time `now`; the
 free-connections counter does not move during it. Closing a connection is
 recorded in a log of closed connections instead of being performed.
 */
module IdleConnectionWatcher {

  /** A pooled connection: its identity and the time (ms) it was last used. */
  datatype Connection = Connection(id: nat, lastUsage: int)

  /**
   One registered pool: its minimum and maximum size, its collection of idle
   connections (in iteration order) and its free-connections counter.
   */
  datatype Entry = Entry(
    minimumAmount: int,
    maximumAmount: int,
    connections: seq<Connection>,
    freeConnectionsCounter: int)

  /** The quantity the floor check compares with the minimum. */
  function Amount(e: Entry): int {
    e.maximumAmount - e.freeConnectionsCounter + |e.connections|
  }

  /** The floor check: may one more connection of this entry be closed? */
  function ValidateAmount(e: Entry): (ok: bool)
    ensures ok <==> e.maximumAmount - e.freeConnectionsCounter + |e.connections| >= e.minimumAmount
  {
    Amount(e) >= e.minimumAmount
  }

  /**
   The check is re-evaluated after each removal: with one connection fewer it
   still passes exactly when the quantity was above the minimum before.
   */
  lemma FloorCheckAfterRemoval(e: Entry, rest: seq<Connection>)
    requires |rest| == |e.connections| - 1
    ensures ValidateAmount(e.(connections := rest)) <==> Amount(e) > e.minimumAmount
  {
  }

  function TimeInPool(c: Connection, now: int): int {
    now - c.lastUsage
  }

  /** Idle strictly longer than the timeout: exactly the timeout is not enough. */
  predicate Expired(c: Connection, now: int, idleTimeout: int) {
    TimeInPool(c, now) > idleTimeout
  }

  function Min(a: int, b: int): int {
    if a <= b then a else b
  }

  /** `f` has the bounds and the counter of `e`. */
  predicate SameBounds(e: Entry, f: Entry) {
    && f.minimumAmount == e.minimumAmount
    && f.maximumAmount == e.maximumAmount
    && f.freeConnectionsCounter == e.freeConnectionsCounter
  }

  /** `a` is `b` with some elements left out and the rest in their order. */
  predicate Subsequence(a: seq<Connection>, b: seq<Connection>)
    decreases |b|
  {
    |a| == 0 ||
    (|b| > 0 && ((a[0] == b[0] && Subsequence(a[1..], b[1..])) || Subsequence(a, b[1..])))
  }

  // ---------------------------------------------------------------------
  // The collection's remove

  datatype Removal = Removal(removed: bool, rest: seq<Connection>)

  /**
   `Collection.remove(c)`: drops the first occurrence of `c` and reports
   whether there was one; a connection that is not there leaves the
   collection as it was.
   */
  function Remove(cs: seq<Connection>, c: Connection): (r: Removal)
    ensures r.removed <==> c in cs
    ensures !r.removed ==> r.rest == cs
    ensures r.removed ==> |r.rest| == |cs| - 1 && multiset(cs) == multiset(r.rest) + multiset{c}
    decreases |cs|
  {
    if |cs| == 0 then Removal(false, cs)
    else if cs[0] == c then
      assert cs == [cs[0]] + cs[1..];
      Removal(true, cs[1..])
    else
      var t := Remove(cs[1..], c);
      assert cs == [cs[0]] + cs[1..];
      Removal(t.removed, [cs[0]] + t.rest)
  }

  /** Removing `c` that follows a prefix free of `c` removes exactly that element. */
  lemma {:induction false} RemoveAfterPrefix(kept: seq<Connection>, visit: seq<Connection>, c: Connection)
    requires c !in kept
    requires |visit| > 0 && visit[0] == c
    ensures Remove(kept + visit, c) == Removal(true, kept + visit[1..])
    decreases |kept|
  {
    if |kept| == 0 {
      assert kept + visit == visit;
      assert kept + visit[1..] == visit[1..];
      RemoveFindsHead(visit, c);
    } else {
      var cs := kept + visit;
      assert cs[0] == kept[0] && cs[0] != c;
      assert cs[1..] == kept[1..] + visit;
      RemoveAfterPrefix(kept[1..], visit, c);
      RemoveSkipsHead(cs, c);
      assert [kept[0]] + (kept[1..] + visit[1..]) == kept + visit[1..];
    }
  }

  /** `remove` on a collection that starts with the connection removes that head. */
  lemma RemoveFindsHead(cs: seq<Connection>, c: Connection)
    requires |cs| > 0 && cs[0] == c
    ensures Remove(cs, c) == Removal(true, cs[1..])
  {
  }

  /** `remove` passes over a head that is a different connection. */
  lemma RemoveSkipsHead(cs: seq<Connection>, c: Connection)
    requires |cs| > 0 && cs[0] != c
    ensures Remove(cs, c) == Removal(Remove(cs[1..], c).removed, [cs[0]] + Remove(cs[1..], c).rest)
  {
  }

  // ---------------------------------------------------------------------
  // One sweep of one entry

  /** An entry after a sweep, with the connections the sweep closed, in order. */
  datatype Sweep = Sweep(entry: Entry, closed: seq<Connection>)

  /**
   The inner loop of the sweep: visits `visit` in order; a visited connection
   is removed and closed when it is expired, the floor check passes at that
   moment, and the remove finds it in the collection.
   */
  function SweepConnections(visit: seq<Connection>, e: Entry, now: int, idleTimeout: int): (r: Sweep)
    ensures SameBounds(e, r.entry)
    ensures multiset(e.connections) == multiset(r.entry.connections) + multiset(r.closed)
    ensures forall c :: c in r.closed ==> c in visit && Expired(c, now, idleTimeout)
    ensures Amount(r.entry) == Amount(e) - |r.closed|
    ensures Amount(r.entry) >= Min(Amount(e), e.minimumAmount - 1)
    ensures !ValidateAmount(e) ==> r == Sweep(e, [])
    decreases |visit|
  {
    if |visit| == 0 then Sweep(e, [])
    else if !(Expired(visit[0], now, idleTimeout) && ValidateAmount(e)) then
      SweepConnections(visit[1..], e, now, idleTimeout)
    else
      var c := visit[0];
      var removal := Remove(e.connections, c);
      if !removal.removed then SweepConnections(visit[1..], e, now, idleTimeout)
      else
        var next := e.(connections := removal.rest);
        var tail := SweepConnections(visit[1..], next, now, idleTimeout);
        assert multiset([c] + tail.closed) == multiset{c} + multiset(tail.closed);
        RegroupRemoved(multiset(e.connections), multiset(next.connections),
          multiset(tail.entry.connections), multiset(tail.closed), c);
        Sweep(tail.entry, [c] + tail.closed)
  }

  /** The bag before a removal, split into what the rest of the sweep keeps and closes. */
  lemma RegroupRemoved(before: multiset<Connection>, after: multiset<Connection>,
                       kept: multiset<Connection>, closed: multiset<Connection>, c: Connection)
    requires before == after + multiset{c}
    requires after == kept + closed
    ensures before == kept + (multiset{c} + closed)
  {
  }

  /**
   One entry's turn in the sweep: skipped when the floor check fails,
   otherwise its own collection is visited.
   */
  function SweepEntry(e: Entry, now: int, idleTimeout: int): (r: Sweep)
    ensures SameBounds(e, r.entry)
    ensures multiset(e.connections) == multiset(r.entry.connections) + multiset(r.closed)
    ensures forall c :: c in r.closed ==> c in e.connections && Expired(c, now, idleTimeout)
    ensures Amount(r.entry) == Amount(e) - |r.closed|
    ensures ValidateAmount(e) ==> Amount(r.entry) >= e.minimumAmount - 1
    ensures !ValidateAmount(e) ==> r == Sweep(e, [])
  {
    if !ValidateAmount(e) then Sweep(e, [])
    else SweepConnections(e.connections, e, now, idleTimeout)
  }

  // ---------------------------------------------------------------------
  // A reference definition of the sweep's outcome

  /**
   How many connections the floor check lets one sweep close: every removal
   needs `Amount >= minimumAmount` beforehand and lowers `Amount` by one.
   */
  function Budget(e: Entry): nat {
    if ValidateAmount(e) then Amount(e) - e.minimumAmount + 1 else 0
  }

  /** `cs` without its first `n` expired connections. */
  function DropExpired(cs: seq<Connection>, n: nat, now: int, idleTimeout: int): seq<Connection>
    decreases |cs|
  {
    if |cs| == 0 then []
    else if n > 0 && Expired(cs[0], now, idleTimeout) then DropExpired(cs[1..], n - 1, now, idleTimeout)
    else [cs[0]] + DropExpired(cs[1..], n, now, idleTimeout)
  }

  /** The first `n` expired connections of `cs`, in order. */
  function TakeExpired(cs: seq<Connection>, n: nat, now: int, idleTimeout: int): seq<Connection>
    decreases |cs|
  {
    if |cs| == 0 then []
    else if n > 0 && Expired(cs[0], now, idleTimeout) then [cs[0]] + TakeExpired(cs[1..], n - 1, now, idleTimeout)
    else TakeExpired(cs[1..], n, now, idleTimeout)
  }

  /**
   The inner loop against the reference, for a collection that is the
   connections already passed over (`kept`) followed by those still to visit.
   A kept connection that was expired was kept because the floor check had
   failed, and then it still fails.
   */
  lemma {:induction false} SweepConnectionsMatchesBudget(
    kept: seq<Connection>, visit: seq<Connection>, e: Entry, now: int, idleTimeout: int)
    requires e.connections == kept + visit
    requires forall x :: x in kept && Expired(x, now, idleTimeout) ==> !ValidateAmount(e)
    ensures SweepConnections(visit, e, now, idleTimeout).entry.connections
            == kept + DropExpired(visit, Budget(e), now, idleTimeout)
    ensures SweepConnections(visit, e, now, idleTimeout).closed
            == TakeExpired(visit, Budget(e), now, idleTimeout)
    decreases |visit|
  {
    if |visit| == 0 {
      assert kept + visit == kept;
    } else if Expired(visit[0], now, idleTimeout) && ValidateAmount(e) {
      RemovalStep(kept, visit, e, now, idleTimeout);
    } else {
      SkipStep(kept, visit, e, now, idleTimeout);
    }
  }

  /** The step of the inner loop that removes and closes the visited connection. */
  lemma {:induction false} RemovalStep(
    kept: seq<Connection>, visit: seq<Connection>, e: Entry, now: int, idleTimeout: int)
    requires e.connections == kept + visit
    requires forall x :: x in kept && Expired(x, now, idleTimeout) ==> !ValidateAmount(e)
    requires |visit| > 0 && Expired(visit[0], now, idleTimeout) && ValidateAmount(e)
    ensures SweepConnections(visit, e, now, idleTimeout).entry.connections
            == kept + DropExpired(visit, Budget(e), now, idleTimeout)
    ensures SweepConnections(visit, e, now, idleTimeout).closed
            == TakeExpired(visit, Budget(e), now, idleTimeout)
    decreases |visit|, 0
  {
    var c := visit[0];
    var n := Budget(e);
    assert forall x :: x in kept ==> !Expired(x, now, idleTimeout);
    assert c !in kept;
    RemoveAfterPrefix(kept, visit, c);
    var next := e.(connections := kept + visit[1..]);
    assert Amount(next) == Amount(e) - 1;
    assert Budget(next) == n - 1;
    SweepConnectionsMatchesBudget(kept, visit[1..], next, now, idleTimeout);
    var tail := SweepConnections(visit[1..], next, now, idleTimeout);
    assert Remove(e.connections, c) == Removal(true, next.connections);
    assert SweepConnections(visit, e, now, idleTimeout) == Sweep(tail.entry, [c] + tail.closed);
    ReferenceTakesHead(visit, n, now, idleTimeout);
    assert tail.entry.connections == kept + DropExpired(visit[1..], n - 1, now, idleTimeout);
    assert tail.closed == TakeExpired(visit[1..], n - 1, now, idleTimeout);
  }

  /** The reference on an expired head with budget left: that head is taken. */
  lemma ReferenceTakesHead(cs: seq<Connection>, n: nat, now: int, idleTimeout: int)
    requires |cs| > 0 && n > 0 && Expired(cs[0], now, idleTimeout)
    ensures DropExpired(cs, n, now, idleTimeout) == DropExpired(cs[1..], n - 1, now, idleTimeout)
    ensures TakeExpired(cs, n, now, idleTimeout) == [cs[0]] + TakeExpired(cs[1..], n - 1, now, idleTimeout)
  {
  }

  /** The reference on a head that is not expired, or with no budget left: that head is kept. */
  lemma ReferenceKeepsHead(cs: seq<Connection>, n: nat, now: int, idleTimeout: int)
    requires |cs| > 0 && !(n > 0 && Expired(cs[0], now, idleTimeout))
    ensures DropExpired(cs, n, now, idleTimeout) == [cs[0]] + DropExpired(cs[1..], n, now, idleTimeout)
    ensures TakeExpired(cs, n, now, idleTimeout) == TakeExpired(cs[1..], n, now, idleTimeout)
  {
  }

  /** The step of the inner loop that passes over the visited connection. */
  lemma {:induction false} SkipStep(
    kept: seq<Connection>, visit: seq<Connection>, e: Entry, now: int, idleTimeout: int)
    requires e.connections == kept + visit
    requires forall x :: x in kept && Expired(x, now, idleTimeout) ==> !ValidateAmount(e)
    requires |visit| > 0 && !(Expired(visit[0], now, idleTimeout) && ValidateAmount(e))
    ensures SweepConnections(visit, e, now, idleTimeout).entry.connections
            == kept + DropExpired(visit, Budget(e), now, idleTimeout)
    ensures SweepConnections(visit, e, now, idleTimeout).closed
            == TakeExpired(visit, Budget(e), now, idleTimeout)
    decreases |visit|, 0
  {
    var c := visit[0];
    var n := Budget(e);
    KeptStaysUnexpiredOrFloored(kept, c, e, now, idleTimeout);
    assert e.connections == (kept + [c]) + visit[1..];
    SweepConnectionsMatchesBudget(kept + [c], visit[1..], e, now, idleTimeout);
    SweepSkipsHead(visit, e, now, idleTimeout);
    ReferenceKeepsHead(visit, n, now, idleTimeout);
    AppendHead(kept, c, DropExpired(visit[1..], n, now, idleTimeout));
  }

  /** Passing over `c` keeps the requirement on the connections passed over. */
  lemma KeptStaysUnexpiredOrFloored(kept: seq<Connection>, c: Connection, e: Entry, now: int, idleTimeout: int)
    requires forall x :: x in kept && Expired(x, now, idleTimeout) ==> !ValidateAmount(e)
    requires !(Expired(c, now, idleTimeout) && ValidateAmount(e))
    ensures forall x :: x in kept + [c] && Expired(x, now, idleTimeout) ==> !ValidateAmount(e)
  {
    forall x | x in kept + [c] && Expired(x, now, idleTimeout)
      ensures !ValidateAmount(e)
    {
      if x != c {
        assert x in kept;
      }
    }
  }

  /** The sweep passes over a head it does not remove. */
  lemma SweepSkipsHead(visit: seq<Connection>, e: Entry, now: int, idleTimeout: int)
    requires |visit| > 0 && !(Expired(visit[0], now, idleTimeout) && ValidateAmount(e))
    ensures SweepConnections(visit, e, now, idleTimeout) == SweepConnections(visit[1..], e, now, idleTimeout)
  {
  }

  lemma AppendHead(kept: seq<Connection>, c: Connection, rest: seq<Connection>)
    ensures (kept + [c]) + rest == kept + ([c] + rest)
  {
  }


  /**
   A sweep of an entry closes exactly the first `Budget(e)` expired
   connections in iteration order and keeps all the others, in order.
   */
  lemma SweepEntryMatchesBudget(e: Entry, now: int, idleTimeout: int)
    ensures SweepEntry(e, now, idleTimeout).entry.connections == DropExpired(e.connections, Budget(e), now, idleTimeout)
    ensures SweepEntry(e, now, idleTimeout).closed == TakeExpired(e.connections, Budget(e), now, idleTimeout)
  {
    if ValidateAmount(e) {
      assert [] + e.connections == e.connections;
      SweepConnectionsMatchesBudget([], e.connections, e, now, idleTimeout);
    } else {
      DropNothing(e.connections, now, idleTimeout);
    }
  }

  /** With no budget nothing is dropped or taken. */
  lemma {:induction false} DropNothing(cs: seq<Connection>, now: int, idleTimeout: int)
    ensures DropExpired(cs, 0, now, idleTimeout) == cs
    ensures TakeExpired(cs, 0, now, idleTimeout) == []
    decreases |cs|
  {
    if |cs| > 0 {
      DropNothing(cs[1..], now, idleTimeout);
    }
  }

  /** The reference keeps order: what it leaves is a subsequence of the input. */
  lemma {:induction false} DropExpiredKeepsOrder(cs: seq<Connection>, n: nat, now: int, idleTimeout: int)
    ensures Subsequence(DropExpired(cs, n, now, idleTimeout), cs)
    decreases |cs|
  {
    if |cs| > 0 {
      var d := DropExpired(cs, n, now, idleTimeout);
      if n > 0 && Expired(cs[0], now, idleTimeout) {
        DropExpiredKeepsOrder(cs[1..], n - 1, now, idleTimeout);
      } else {
        DropExpiredKeepsOrder(cs[1..], n, now, idleTimeout);
        assert d[1..] == DropExpired(cs[1..], n, now, idleTimeout);
      }
    }
  }

  /** An expired connection left over means the whole budget was spent. */
  lemma {:induction false} LeftoverExpiredMeansBudgetSpent(cs: seq<Connection>, n: nat, now: int, idleTimeout: int, c: Connection)
    requires c in DropExpired(cs, n, now, idleTimeout) && Expired(c, now, idleTimeout)
    ensures |TakeExpired(cs, n, now, idleTimeout)| == n
    decreases |cs|
  {
    if n == 0 {
      DropNothing(cs, now, idleTimeout);
    } else {
      assert |cs| > 0;
      if Expired(cs[0], now, idleTimeout) {
        ReferenceTakesHead(cs, n, now, idleTimeout);
        LeftoverExpiredMeansBudgetSpent(cs[1..], n - 1, now, idleTimeout, c);
      } else {
        ReferenceKeepsHead(cs, n, now, idleTimeout);
        assert c != cs[0];
        LeftoverExpiredMeansBudgetSpent(cs[1..], n, now, idleTimeout, c);
      }
    }
  }


  // ---------------------------------------------------------------------
  // Consequences for one entry's sweep

  /** Connections the sweep does not remove stay, in their original relative order. */
  lemma SweepKeepsOrder(e: Entry, now: int, idleTimeout: int)
    ensures Subsequence(SweepEntry(e, now, idleTimeout).entry.connections, e.connections)
  {
    SweepEntryMatchesBudget(e, now, idleTimeout);
    DropExpiredKeepsOrder(e.connections, Budget(e), now, idleTimeout);
  }

  /** A connection idle for at most the timeout (exactly the timeout included) survives the sweep. */
  lemma SweepKeepsUnexpired(e: Entry, now: int, idleTimeout: int, c: Connection)
    requires c in e.connections
    requires TimeInPool(c, now) <= idleTimeout
    ensures c in SweepEntry(e, now, idleTimeout).entry.connections
  {
    var r := SweepEntry(e, now, idleTimeout);
    assert c !in r.closed;
    assert multiset(e.connections)[c] > 0;
    assert multiset(r.closed)[c] == 0;
    assert multiset(r.entry.connections)[c] > 0;
  }

  /**
   The sweep stops only at the floor: when an entry that passed the floor
   check still holds an expired connection afterwards, `Amount` has reached
   exactly `minimumAmount - 1`.
   */
  lemma SweepStopsAtFloor(e: Entry, now: int, idleTimeout: int, c: Connection)
    requires ValidateAmount(e)
    requires c in SweepEntry(e, now, idleTimeout).entry.connections && Expired(c, now, idleTimeout)
    ensures Amount(SweepEntry(e, now, idleTimeout).entry) == e.minimumAmount - 1
  {
    SweepEntryMatchesBudget(e, now, idleTimeout);
    LeftoverExpiredMeansBudgetSpent(e.connections, Budget(e), now, idleTimeout, c);
  }

  /** A visited connection missing from the collection is never closed: its remove returns false. */
  lemma AbsentConnectionNotClosed(visit: seq<Connection>, e: Entry, now: int, idleTimeout: int, c: Connection)
    requires c !in e.connections
    ensures c !in SweepConnections(visit, e, now, idleTimeout).closed
  {
    var r := SweepConnections(visit, e, now, idleTimeout);
    assert multiset(e.connections)[c] == 0;
  }

  // ---------------------------------------------------------------------
  // The registry and the scheduled sweep

  datatype Watcher = Watcher(entries: seq<Entry>)

  /** A watcher as constructed: no entry registered yet. */
  function NewWatcher(): Watcher {
    Watcher([])
  }

  /** `add`: registers one more entry, after the existing ones. */
  function Add(w: Watcher, minimumAmount: int, maximumAmount: int, connections: seq<Connection>,
               freeConnectionsCounter: int): (r: Watcher)
    ensures |r.entries| == |w.entries| + 1
    ensures r.entries[..|w.entries|] == w.entries
    ensures r.entries[|w.entries|] == Entry(minimumAmount, maximumAmount, connections, freeConnectionsCounter)
  {
    Watcher(w.entries + [Entry(minimumAmount, maximumAmount, connections, freeConnectionsCounter)])
  }

  /** All idle connections of the entries, entry after entry. */
  function AllConnections(entries: seq<Entry>): seq<Connection>
    decreases |entries|
  {
    if |entries| == 0 then [] else entries[0].connections + AllConnections(entries[1..])
  }

  /** The registry after a sweep, with the log of closed connections. */
  datatype Tick = Tick(entries: seq<Entry>, closed: seq<Connection>)

  /**
   The body of the scheduled `run()`: every registered entry gets its turn,
   in registration order, and each turn only touches its own entry.
   */
  function SweepEntries(entries: seq<Entry>, now: int, idleTimeout: int): (r: Tick)
    ensures |r.entries| == |entries|
    ensures forall i :: 0 <= i < |entries| ==> r.entries[i] == SweepEntry(entries[i], now, idleTimeout).entry
    ensures multiset(AllConnections(entries)) == multiset(AllConnections(r.entries)) + multiset(r.closed)
    ensures forall c :: c in r.closed ==> Expired(c, now, idleTimeout)
    decreases |entries|
  {
    if |entries| == 0 then Tick([], [])
    else
      var head := SweepEntry(entries[0], now, idleTimeout);
      var tail := SweepEntries(entries[1..], now, idleTimeout);
      var r := Tick([head.entry] + tail.entries, head.closed + tail.closed);
      assert r.entries[1..] == tail.entries;
      assert multiset(r.closed) == multiset(head.closed) + multiset(tail.closed);
      r
  }

  /** `run()` on the watcher's registry. */
  function Run(w: Watcher, now: int, idleTimeout: int): (r: Tick)
    ensures |r.entries| == |w.entries|
    ensures forall i :: 0 <= i < |w.entries| ==> r.entries[i] == SweepEntry(w.entries[i], now, idleTimeout).entry
    ensures multiset(AllConnections(w.entries)) == multiset(AllConnections(r.entries)) + multiset(r.closed)
    ensures forall c :: c in r.closed ==> Expired(c, now, idleTimeout)
  {
    SweepEntries(w.entries, now, idleTimeout)
  }

  /**
   A registered entry takes part in the next run: the entry `add` appended is
   swept like any other, and the entries registered before it are swept as
   they would have been without it.
   */
  lemma AddedEntryIsSwept(w: Watcher, minimumAmount: int, maximumAmount: int, connections: seq<Connection>,
                          freeConnectionsCounter: int, now: int, idleTimeout: int)
    ensures Run(Add(w, minimumAmount, maximumAmount, connections, freeConnectionsCounter), now, idleTimeout).entries
            == Run(w, now, idleTimeout).entries
               + [SweepEntry(Entry(minimumAmount, maximumAmount, connections, freeConnectionsCounter), now, idleTimeout).entry]
  {
    var w' := Add(w, minimumAmount, maximumAmount, connections, freeConnectionsCounter);
    var a := Run(w', now, idleTimeout).entries;
    var b := Run(w, now, idleTimeout).entries
             + [SweepEntry(Entry(minimumAmount, maximumAmount, connections, freeConnectionsCounter), now, idleTimeout).entry];
    assert |a| == |b|;
    forall i | 0 <= i < |a|
      ensures a[i] == b[i]
    {
      if i < |w.entries| {
        assert w'.entries[i] == w.entries[i];
      }
    }
  }

  /** After a run every entry either kept its floor margin or was left untouched. */
  lemma RunRespectsFloor(w: Watcher, now: int, idleTimeout: int, i: nat)
    requires i < |w.entries|
    ensures |Run(w, now, idleTimeout).entries| == |w.entries|
    ensures ValidateAmount(w.entries[i]) ==>
              Amount(Run(w, now, idleTimeout).entries[i]) >= w.entries[i].minimumAmount - 1
    ensures !ValidateAmount(w.entries[i]) ==> Run(w, now, idleTimeout).entries[i] == w.entries[i]
  {
  }

  /** A freshly constructed watcher has nothing to sweep: its first run closes nothing. */
  lemma NewWatcherClosesNothing(now: int, idleTimeout: int)
    ensures Run(NewWatcher(), now, idleTimeout) == Tick([], [])
  {
  }

  /** The first entry added to a new watcher is the only one its next run sweeps. */
  lemma FirstAddIsOnlyEntrySwept(minimumAmount: int, maximumAmount: int, connections: seq<Connection>,
                                 freeConnectionsCounter: int, now: int, idleTimeout: int)
    ensures Run(Add(NewWatcher(), minimumAmount, maximumAmount, connections, freeConnectionsCounter), now, idleTimeout).entries
            == [SweepEntry(Entry(minimumAmount, maximumAmount, connections, freeConnectionsCounter), now, idleTimeout).entry]
  {
    AddedEntryIsSwept(NewWatcher(), minimumAmount, maximumAmount, connections, freeConnectionsCounter, now, idleTimeout);
    NewWatcherClosesNothing(now, idleTimeout);
  }

  // ---------------------------------------------------------------------
  // Worked examples

  function IdleSince(t: int): seq<Connection> {
    [Connection(1, t), Connection(2, t), Connection(3, t), Connection(4, t)]
  }

  /** With budget `n` at least one, the four connections idle since `t` are taken one by one at `t + 150`. */
  lemma TakeFourIdle(t: int, n: nat)
    requires n >= 1
    ensures TakeExpired(IdleSince(t), n, t + 150, 100) == IdleSince(t)[..Min(n, 4)]
    ensures DropExpired(IdleSince(t), n, t + 150, 100) == IdleSince(t)[Min(n, 4)..]
    ensures n >= 4 ==> TakeExpired(IdleSince(t), n, t + 150, 100) == IdleSince(t)
    ensures n >= 4 ==> DropExpired(IdleSince(t), n, t + 150, 100) == []
  {
    var cs := IdleSince(t);
    var now := t + 150;
    assert cs[1..] == [Connection(2, t), Connection(3, t), Connection(4, t)];
    assert cs[1..][1..] == [Connection(3, t), Connection(4, t)];
    assert cs[1..][1..][1..] == [Connection(4, t)];
    ReferenceTakesHead(cs, n, now, 100);
    if n == 1 {
      DropNothing(cs[1..], now, 100);
    } else {
      ReferenceTakesHead(cs[1..], n - 1, now, 100);
      if n == 2 {
        DropNothing(cs[1..][1..], now, 100);
      } else {
        ReferenceTakesHead(cs[1..][1..], n - 2, now, 100);
        if n == 3 {
          DropNothing(cs[1..][1..][1..], now, 100);
        } else {
          ReferenceTakesHead(cs[1..][1..][1..], n - 3, now, 100);
          DropNothing(cs[1..][1..][1..][1..], now, 100);
          assert cs[..4] == cs;
        }
      }
    }
  }

  /** An entry holding the four connections idle since `t`, swept at `t + 150`, closes the first `Min(Budget, 4)`. */
  lemma SweepFourIdle(e: Entry, t: int)
    requires e.connections == IdleSince(t) && Budget(e) >= 1
    ensures SweepEntry(e, t + 150, 100).closed == IdleSince(t)[..Min(Budget(e), 4)]
    ensures SweepEntry(e, t + 150, 100).entry.connections == IdleSince(t)[Min(Budget(e), 4)..]
    ensures Budget(e) >= 4 ==> SweepEntry(e, t + 150, 100).closed == IdleSince(t)
    ensures Budget(e) >= 4 ==> SweepEntry(e, t + 150, 100).entry.connections == []
  {
    SweepEntryMatchesBudget(e, t + 150, 100);
    TakeFourIdle(t, Budget(e));
  }

  /**
   Pool of minimum 1 and maximum 5 with one connection borrowed (four free)
   and four idle connections last used at `t`, swept at `t + 150` with idle
   timeout 100 ms: the sweep closes all four.
   */
  lemma FourIdleOverMinimumOne(t: int)
    ensures SweepEntry(Entry(1, 5, IdleSince(t), 4), t + 150, 100).closed == IdleSince(t)
    ensures SweepEntry(Entry(1, 5, IdleSince(t), 4), t + 150, 100).entry.connections == []
  {
    var e := Entry(1, 5, IdleSince(t), 4);
    assert Budget(e) == 5;
    SweepFourIdle(e, t);
  }

  /**
   The same pool with minimum 3: the floor check passes at amounts 5, 4 and
   3, so three connections are closed and `Amount` ends at 2, one below the
   minimum.
   */
  lemma FloorCheckAllowsOneBelowMinimum(t: int)
    ensures SweepEntry(Entry(3, 5, IdleSince(t), 4), t + 150, 100).closed == IdleSince(t)[..3]
    ensures Amount(SweepEntry(Entry(3, 5, IdleSince(t), 4), t + 150, 100).entry) == 2
  {
    var e := Entry(3, 5, IdleSince(t), 4);
    assert Budget(e) == 3;
    SweepFourIdle(e, t);
  }

  /** A connection idle for exactly the timeout is kept. */
  lemma IdleExactlyTimeoutIsKept()
    ensures SweepEntry(Entry(0, 5, [Connection(7, 50)], 0), 150, 100).closed == []
  {
    var e := Entry(0, 5, [Connection(7, 50)], 0);
    SweepEntryMatchesBudget(e, 150, 100);
  }
}
