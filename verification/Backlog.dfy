/** The gate on peer events waiting for the finality thread (arxd/node/src/lib.rs `PeerEvents::send`,
    arxd/finality/src/lib.rs), under every interleaving of its atomic steps. */
module Backlog {

  const PEER_EVENT_BACKLOG_CAP: nat := 50_000

  type Thread = nat

  /** Senders by where they stand: past the add and let in, past the add and over the cap, or let in
      with the channel found closed. `taken` is an event received but not yet subtracted, `lost` are
      events that were queued when the receiver went away. */
  datatype Gate = Gate(
    counter: int,
    queued: nat,
    admitted: set<Thread>,
    over: set<Thread>,
    failed: set<Thread>,
    taken: bool,
    open: bool,
    lost: nat)

  const EMPTY := Gate(0, 0, {}, {}, {}, false, true, 0)

  /** One atomic step of some thread. */
  datatype Event =
    | Add(t: Thread)      // fetch_add, compared with the cap
    | Send(t: Thread)     // the channel send of a sender let in
    | Undo(t: Thread)     // fetch_sub of a sender over the cap or with a failed send
    | Receive             // the finality thread dequeues
    | Settle              // and subtracts
    | Close               // the receiver is dropped

  predicate Idle(g: Gate, t: Thread) {
    t !in g.admitted && t !in g.over && t !in g.failed
  }

  function Added(g: Gate, t: Thread): Gate {
    if !Idle(g, t) then g
    else if g.counter >= PEER_EVENT_BACKLOG_CAP then g.(counter := g.counter + 1, over := g.over + {t})
    else g.(counter := g.counter + 1, admitted := g.admitted + {t})
  }

  function Sent(g: Gate, t: Thread): Gate {
    if t !in g.admitted then g
    else if g.open then g.(admitted := g.admitted - {t}, queued := g.queued + 1)
    else g.(admitted := g.admitted - {t}, failed := g.failed + {t})
  }

  function Undone(g: Gate, t: Thread): Gate {
    if t in g.over then g.(counter := g.counter - 1, over := g.over - {t})
    else if t in g.failed then g.(counter := g.counter - 1, failed := g.failed - {t})
    else g
  }

  function Step(g: Gate, ev: Event): Gate {
    match ev
    case Add(t) => Added(g, t)
    case Send(t) => Sent(g, t)
    case Undo(t) => Undone(g, t)
    case Receive => if g.open && !g.taken && g.queued > 0 then g.(queued := g.queued - 1, taken := true) else g
    case Settle => if g.taken then g.(counter := g.counter - 1, taken := false) else g
    case Close => g.(open := false, lost := g.lost + g.queued, queued := 0)
  }

  function Exec(run: seq<Event>): Gate {
    if run == [] then EMPTY else Step(Exec(run[..|run| - 1]), run[|run| - 1])
  }

  /** Events that hold a place below the cap. */
  function Holding(g: Gate): nat {
    g.queued + g.lost + |g.admitted| + |g.failed| + if g.taken then 1 else 0
  }

  predicate Inv(g: Gate) {
    && g.admitted !! g.over && g.admitted !! g.failed && g.over !! g.failed
    && g.counter == Holding(g) + |g.over|
    && Holding(g) <= PEER_EVENT_BACKLOG_CAP
  }

  lemma OneMore(s: set<Thread>, t: Thread)
    requires t !in s
    ensures |s + {t}| == |s| + 1
  {
  }

  lemma AddKeeps(g: Gate, t: Thread)
    requires Inv(g)
    ensures Inv(Added(g, t))
  {
    if Idle(g, t) {
      OneMore(g.admitted, t);
      OneMore(g.over, t);
    }
  }

  lemma SendKeeps(g: Gate, t: Thread)
    requires Inv(g)
    ensures Inv(Sent(g, t))
  {
  }

  lemma UndoKeeps(g: Gate, t: Thread)
    requires Inv(g)
    ensures Inv(Undone(g, t))
  {
  }

  lemma StepKeeps(g: Gate, ev: Event)
    requires Inv(g)
    ensures Inv(Step(g, ev))
  {
    match ev
    case Add(t) => AddKeeps(g, t);
    case Send(t) => SendKeeps(g, t);
    case Undo(t) => UndoKeeps(g, t);
    case _ =>
  }

  /** Whatever the interleaving: never more than the cap queued, the counter is exactly what is queued
      or still between two atomic steps, so it never goes below zero, and no subtraction finds it
      empty. */
  lemma {:induction false} GateHolds(run: seq<Event>)
    ensures Inv(Exec(run))
    ensures Exec(run).queued <= PEER_EVENT_BACKLOG_CAP && Exec(run).counter >= 0
    ensures Exec(run).taken || Exec(run).over != {} || Exec(run).failed != {} ==> Exec(run).counter >= 1
  {
    if run != [] {
      GateHolds(run[..|run| - 1]);
      StepKeeps(Exec(run[..|run| - 1]), run[|run| - 1]);
    }
  }

  /** No thread is between two steps, and the channel is open. */
  predicate AtRest(g: Gate) {
    g.open && !g.taken && g.admitted == {} && g.over == {} && g.failed == {}
  }

  /** At rest on an open channel the counter is the queue, so a sender is turned away only when the cap
      is reached by queued events alone. */
  lemma AtRestExact(run: seq<Event>)
    requires AtRest(Exec(run))
    ensures Exec(run).counter == Exec(run).queued
  {
    GateHolds(run);
    NothingLost(run);
  }

  lemma {:induction false} NothingLost(run: seq<Event>)
    ensures Exec(run).open ==> Exec(run).lost == 0
    ensures Exec(run).open <==> forall i :: 0 <= i < |run| ==> !run[i].Close?
  {
    if run != [] {
      NothingLost(run[..|run| - 1]);
    }
  }

  lemma ExecMore(run: seq<Event>, a: Event, b: Event)
    ensures Exec(run + [a, b]) == Step(Step(Exec(run), a), b)
  {
    assert (run + [a, b])[..|run| + 1] == run + [a] && (run + [a])[..|run|] == run;
  }

  /** And it is let in when that is not so: from rest a sender adds its event to the queue exactly while fewer than
      the cap wait there and otherwise leaves no trace; and the finality thread takes one out whenever one waits. */
  lemma RestExact(run: seq<Event>, t: Thread)
    requires AtRest(Exec(run))
    ensures var g, sent := Exec(run), Exec(run + [Add(t), Send(t)]);
            if g.queued < PEER_EVENT_BACKLOG_CAP then AtRest(sent) && sent.queued == g.queued + 1
            else Exec(run + [Add(t), Undo(t)]) == g
    ensures var g, served := Exec(run), Exec(run + [Receive, Settle]);
            AtRest(served) && served.queued == if g.queued > 0 then g.queued - 1 else 0
  {
    AtRestExact(run);
    ExecMore(run, Add(t), Send(t));
    ExecMore(run, Add(t), Undo(t));
    ExecMore(run, Receive, Settle);
  }

  /** Step `i` of the run put an event on the channel. */
  predicate Puts(run: seq<Event>, i: nat)
    requires i < |run|
  {
    run[i].Send? && run[i].t in Exec(run[..i]).admitted && Exec(run[..i]).open
  }

  /** Step `i` of the run took one off. */
  predicate Takes(run: seq<Event>, i: nat)
    requires i < |run|
  {
    run[i].Receive? && Exec(run[..i]).open && !Exec(run[..i]).taken && Exec(run[..i]).queued > 0
  }

  function Count(run: seq<Event>, puts: bool, n: nat): nat
    requires n <= |run|
  {
    if n == 0 then 0
    else Count(run, puts, n - 1) + if (if puts then Puts(run, n - 1) else Takes(run, n - 1)) then 1 else 0
  }

  /** Nothing is dropped or delivered twice between the two ends: what was put on the channel was taken off, is
      still queued, or was there when the receiver went away. */
  lemma {:induction false} Delivered(run: seq<Event>, n: nat)
    requires n <= |run|
    ensures Count(run, true, n) == Count(run, false, n) + Exec(run[..n]).queued + Exec(run[..n]).lost
    decreases n
  {
    if n == 0 {
      assert run[..0] == [];
    } else {
      Delivered(run, n - 1);
      assert run[..n][..n - 1] == run[..n - 1] && run[..n][n - 1] == run[n - 1];
    }
  }
}
