/** The demand-driven scheduler of the solver: the work queue, the requests between
    edges, and the dispatch of one edge. */
module Scheduler {
  import opened SolverTypes
  import opened DispatchQueue
  import opened Edges

  lemma NoDupConcat<T>(a: seq<T>, b: seq<T>)
    requires NoDup(a) && NoDup(b) && forall x | x in a :: x !in b
    ensures NoDup(a + b)
  {
    forall i, j | 0 <= i < j < |a + b| ensures (a + b)[i] != (a + b)[j] {
      if i < |a| <= j { assert a[i] in a && b[j - |a|] in b; }
    }
  }

  lemma NoDupNone<T>(a: seq<T>)
    requires a == []
    ensures NoDup(a)
  {
  }

  lemma NoDupMore<T>(a: seq<T>, x: T)
    requires NoDup(a) && x !in a
    ensures NoDup(a + [x])
  {
  }

  /** What comes next in a list without repeats is new. */
  lemma NextIsNew<T>(s: seq<T>, n: nat)
    requires NoDup(s) && n < |s|
    ensures s[n] !in s[..n] && s[..n + 1] == s[..n] + [s[n]]
    ensures forall i | n < i < |s| :: s[i] != s[n] && s[i] !in s[..n + 1]
  {
  }

  // ---- what the scheduler keeps; x is the edge that is being dispatched, or null ----

  function PipesOf(m: map<Edge, seq<Pipe>>, e: Edge): seq<Pipe> {
    if e in m then m[e] else []
  }

  /** b lists the pipes of a and then at least one more; the last one is open. */
  ghost predicate More(a: seq<Pipe>, b: seq<Pipe>)
    reads (if b == [] then {} else {b[|b| - 1]})`recv
  {
    a < b && !b[|b| - 1].recv.completed
  }

  /** b lists the pipes of a and one that only makes the edge be dispatched again. */
  ghost predicate Postpones(a: seq<Pipe>, b: seq<Pipe>) {
    |b| == |a| + 1 && a < b && b[|a|].work == Postpone
  }

  lemma MoreAfter(a: seq<Pipe>, b: seq<Pipe>, c: seq<Pipe>)
    requires (More(a, b) || a == b) && (More(b, c) || b == c)
    ensures (More(a, c) || a == c) && (a == c <==> a == b && b == c)
  {
  }

  /** A request that is not answered is listed once, under its target. */
  ghost predicate ListedIn(x: Edge?, incoming: map<Edge, seq<Pipe>>, edges: set<Edge>, pipes: set<Pipe>)
    reads pipes`target, pipes`send
  {
    && (forall e | e in incoming ::
          && e in edges && incoming[e] != [] && NoDup(incoming[e])
          && forall p | p in incoming[e] :: p in pipes && p.target == e && (e == x || !p.send.completed))
    && (forall p | p in pipes && p.target != null && !p.send.completed :: p in PipesOf(incoming, p.target))
  }

  /** A request whose completion was not received is listed once, under the edge that waits for it. */
  ghost predicate ListedOut(x: Edge?, outgoing: map<Edge, seq<Pipe>>, edges: set<Edge>, pipes: set<Pipe>)
    reads pipes`from, pipes`recv
  {
    && (forall e | e in outgoing ::
          && e in edges && outgoing[e] != [] && NoDup(outgoing[e])
          && forall p | p in outgoing[e] :: p in pipes && p.from == e && (e == x || !p.recv.completed))
    && (forall p | p in pipes && p.from != null && !p.recv.completed :: p in PipesOf(outgoing, p.from))
  }

  /** A pipe wakes up the edges at its ends: the receiver of an unread reply and the target of an
      unseen request are queued. */
  ghost predicate PipeOK(p: Pipe, waitq: set<Edge>, edges: set<Edge>)
    reads p
  {
    && (p.work.Request? <==> p.target != null)
    && (p.from == null ==> p.work.Request?)
    && (p.from != null ==> p.from in edges)
    && (p.target != null ==> p.target in edges)
    && (p.creator != null ==> p.creator in edges)
    && (p.creator == null <==> p.from == null)
    && (!p.unread ==> p.recv == p.send)
    && (p.recv.completed ==> p.send.completed && !p.unread)
    && p.Fits(p.send, edges) && p.Fits(p.recv, edges)
    && (p.from != null && p.unread ==> p.from in waitq)
    && (p.target != null && p.unseen && !p.send.completed ==> p.target in waitq)
  }

  /** No wakeup is lost. */
  ghost predicate Awake(pipes: set<Pipe>, waitq: set<Edge>, edges: set<Edge>)
    reads pipes
  {
    forall p | p in pipes :: PipeOK(p, waitq, edges)
  }

  /** A request for the result that was answered without an error was answered by an edge that has the result. */
  ghost predicate Answered(pipes: set<Pipe>, edges: set<Edge>)
    reads pipes`send, edges`result
  {
    forall p | p in pipes && p.work.Request? && p.send.completed && p.send.err.None? && p.desired == COMPLETE ::
      p.send.value.StateOf? && p.send.value.edge in edges && p.send.value.edge.result.Some?
  }

  /** The edge made its requests and knows which of them have completed; it is at their receiving end, unless they
      have been moved to another edge. */
  ghost predicate Knows(e: Edge, mine: set<Pipe>, done: set<Pipe>, all: bool, moved: bool)
    reads mine`from, mine`recv
  {
    forall p | p in mine ::
      && p.creator == e && (!moved ==> p.from == e)
      && (p in done ==> p.recv.completed)
      && (all && p.from == e && p.recv.completed ==> p in done)
  }

  ghost predicate Linked(x: Edge?, edges: set<Edge>, moved: set<Edge>, pipes: set<Pipe>)
    reads edges`mine, edges`done, pipes`from, pipes`recv
  {
    forall e | e in edges :: e.done <= e.mine <= pipes && Knows(e, e.mine, e.done, e != x, e in moved)
  }

  /** A request to execute or to load is known to the edge that made it, and not done, until its reply is received. */
  ghost predicate Execs(edges: set<Edge>, pipes: set<Pipe>)
    reads edges`mine, edges`done, pipes`recv
  {
    forall p | p in pipes && p.work.ExecFn? && !p.recv.completed ::
      p.creator != null && p.creator in edges && p in p.creator.mine && p !in p.creator.done
  }

  ghost predicate Postponed(ps: seq<Pipe>) {
    forall p | p in ps :: p.work == Postpone
  }

  /** An edge that waits for something is waited for. Only if a merged edge has been asked again, an edge can be left
      with requests that just wake it up. */
  ghost predicate Needed(x: Edge?, incoming: map<Edge, seq<Pipe>>, outgoing: map<Edge, seq<Pipe>>, asked: set<Edge>) {
    forall e | e in outgoing && e != x :: e in incoming || (asked != {} && Postponed(outgoing[e]))
  }

  /** An edge that is waited for waits for something or is queued. */
  ghost predicate Served(x: Edge?, incoming: map<Edge, seq<Pipe>>, outgoing: map<Edge, seq<Pipe>>, waitq: set<Edge>) {
    forall e | e in incoming && e != x :: e in outgoing || e in waitq
  }

  /** The edges whose requests have been moved, and those of them that have been given requests since. */
  ghost predicate Merged(incoming: map<Edge, seq<Pipe>>, moved: set<Edge>, asked: set<Edge>, edges: set<Edge>) {
    asked <= moved <= edges && forall e | e in incoming && e in moved :: e in asked
  }

  ghost predicate Sound(es: set<Edge>)
    reads es
  {
    forall e | e in es :: e.Shape() && e.Started() && e.Wired() && e.Synced() && !e.keysDidChange && e.Failing()
  }

  lemma SoundApart(es: set<Edge>, e: Edge)
    requires Sound(es) == true && e in es
    ensures Sound(es - {e}) && e.Shape() && e.Started() && e.Wired() && e.Synced() && !e.keysDidChange && e.Failing()
  {
  }

  lemma SoundAgain(es: set<Edge>, e: Edge)
    requires Sound(es - {e}) == e.Shape() == e.Wired() == e.Synced() == true && e.Started() && !e.keysDidChange
    requires e.Failing()
    ensures Sound(es)
  {
  }

  lemma ListOut(x: Edge?, outgoing: map<Edge, seq<Pipe>>, edges: set<Edge>, pipes: set<Pipe>, from: Edge, p: Pipe)
    requires ListedOut(x, outgoing, edges, pipes) == true && p !in pipes && p.from == from && from in edges
      && !p.recv.completed
    ensures ListedOut(x, outgoing[from := PipesOf(outgoing, from) + [p]], edges, pipes + {p})
  {
  }

  lemma KeptIn(e: Edge, incoming: map<Edge, seq<Pipe>>, edges: set<Edge>, pipes: set<Pipe>, open: seq<Pipe>)
    requires ListedIn(e, incoming, edges, pipes) == true
    requires NoDup(open) && forall p :: p in open <==> p in PipesOf(incoming, e) && !p.send.completed
    ensures ListedIn(null, if open == [] then incoming - {e} else incoming[e := open], edges, pipes)
  {
    if open != [] { assert open[0] in open; }
  }

  lemma KeptOut(e: Edge, outgoing: map<Edge, seq<Pipe>>, edges: set<Edge>, pipes: set<Pipe>, open: seq<Pipe>)
    requires ListedOut(e, outgoing, edges, pipes) == true
    requires NoDup(open) && forall p :: p in open <==> p in PipesOf(outgoing, e) && !p.recv.completed
    ensures ListedOut(null, if open == [] then outgoing - {e} else outgoing[e := open], edges, pipes)
  {
    if open != [] { assert open[0] in open; }
  }

  lemma AddAwake(pipes: set<Pipe>, waitq: set<Edge>, edges: set<Edge>, p: Pipe)
    requires Awake(pipes, waitq, edges) == PipeOK(p, waitq, edges) == true
    ensures Awake(pipes + {p}, waitq, edges)
  {
  }

  lemma ServedMore(incoming: map<Edge, seq<Pipe>>, outgoing: map<Edge, seq<Pipe>>, waitq: set<Edge>, e: Edge,
                   ps: seq<Pipe>)
    requires Served(null, incoming, outgoing, waitq) == true && e in waitq
    ensures Served(null, incoming[e := ps], outgoing, waitq)
  {
  }

  lemma NeededMore(x: Edge?, incoming: map<Edge, seq<Pipe>>, outgoing: map<Edge, seq<Pipe>>, asked: set<Edge>, e: Edge,
                   ps: seq<Pipe>, more: set<Edge>)
    requires Needed(x, incoming, outgoing, asked) == true
    ensures Needed(x, incoming[e := ps], outgoing, asked + more)
  {
  }

  lemma ServedLonger(x: Edge?, incoming: map<Edge, seq<Pipe>>, outgoing: map<Edge, seq<Pipe>>, waitq0: set<Edge>,
                     waitq: set<Edge>)
    requires Served(x, incoming, outgoing, waitq0) == true && waitq0 <= waitq
    ensures Served(x, incoming, outgoing, waitq)
  {
  }

  /** e, which is being dispatched, makes a request to an edge that is woken up. */
  lemma BalanceMore(incoming: map<Edge, seq<Pipe>>, outgoing: map<Edge, seq<Pipe>>, waitq: set<Edge>, asked: set<Edge>,
                    e: Edge, target: Edge, ps: seq<Pipe>, qs: seq<Pipe>, more: set<Edge>)
    requires Needed(e, incoming, outgoing, asked) == Served(e, incoming, outgoing, waitq) == true && target in waitq
    ensures Needed(e, incoming[target := ps], outgoing[e := qs], asked + more)
    ensures Served(e, incoming[target := ps], outgoing[e := qs], waitq)
  {
  }

  lemma ListOutNone(x: Edge?, outgoing: map<Edge, seq<Pipe>>, edges: set<Edge>, pipes: set<Pipe>, p: Pipe)
    requires ListedOut(x, outgoing, edges, pipes) == true && p.from == null
    ensures ListedOut(x, outgoing, edges, pipes + {p})
  {
  }

  lemma AwakeMore(pipes: set<Pipe>, waitq: set<Edge>, edges: set<Edge>, e: Edge)
    requires Awake(pipes, waitq, edges) == true
    ensures Awake(pipes, waitq + {e}, edges)
  {
  }

  lemma AddAnswer(pipes: set<Pipe>, edges: set<Edge>, p: Pipe)
    requires Answered(pipes, edges) == true && !p.send.completed
    ensures Answered(pipes + {p}, edges)
  {
  }

  lemma LinkMore(x: Edge?, edges: set<Edge>, moved: set<Edge>, pipes: set<Pipe>, p: Pipe)
    requires Linked(x, edges, moved, pipes) == true
    ensures Linked(x, edges, moved, pipes + {p})
  {
  }

  lemma ExecMore(edges: set<Edge>, pipes: set<Pipe>, p: Pipe)
    requires Execs(edges, pipes) == true && !p.work.ExecFn?
    ensures Execs(edges, pipes + {p})
  {
  }

  /** A new edge has made no request and is mentioned nowhere. */
  lemma MoreEdges(edges: set<Edge>, moved: set<Edge>, pipes: set<Pipe>, n: Edge)
    requires Linked(null, edges, moved, pipes) == Sound(edges) == Execs(edges, pipes) == true && n !in edges
    requires n.Shape() == n.Wired() == n.Synced() == true && n.mine == n.done == {} && !n.keysDidChange && n.Started()
    requires n.Failing()
    ensures Linked(null, edges + {n}, moved, pipes) && Sound(edges + {n}) && Execs(edges + {n}, pipes)
  {
  }

  lemma MoreNet(incoming: map<Edge, seq<Pipe>>, outgoing: map<Edge, seq<Pipe>>, edges: set<Edge>, pipes: set<Pipe>,
                waitq: set<Edge>, n: Edge)
    requires ListedIn(null, incoming, edges, pipes) == ListedOut(null, outgoing, edges, pipes) == true
    requires Awake(pipes, waitq, edges) == Answered(pipes, edges) == true
    ensures ListedIn(null, incoming, edges + {n}, pipes) && ListedOut(null, outgoing, edges + {n}, pipes)
    ensures Awake(pipes, waitq, edges + {n}) && Answered(pipes, edges + {n})
  {
  }

  lemma MoreMerged(incoming: map<Edge, seq<Pipe>>, moved: set<Edge>, asked: set<Edge>, edges: set<Edge>, n: Edge)
    requires Merged(incoming, moved, asked, edges)
    ensures Merged(incoming, moved, asked, edges + {n})
  {
  }

  lemma AddKnown(e: Edge, mine: set<Pipe>, done: set<Pipe>, all: bool, moved: bool, p: Pipe)
    requires Knows(e, mine, done, all, moved) == true && p.creator == p.from == e && !p.recv.completed && p !in done
    ensures Knows(e, mine + {p}, done, all, moved)
  {
  }

  lemma ListIn(x: Edge?, incoming: map<Edge, seq<Pipe>>, edges: set<Edge>, pipes: set<Pipe>, target: Edge?, p: Pipe)
    requires ListedIn(x, incoming, edges, pipes) == true && p !in pipes && p.target == target && !p.send.completed
    requires target != null ==> target in edges
    ensures ListedIn(x, if target == null then incoming else incoming[target := PipesOf(incoming, target) + [p]],
                     edges, pipes + {p})
  {
  }

  lemma LinkMoved(edges: set<Edge>, moved: set<Edge>, pipes: set<Pipe>, e: Edge)
    requires Linked(null, edges, moved, pipes) == true
    ensures Linked(null, edges, moved + {e}, pipes)
  {
  }

  /** What the index and the edge factory answer when the keys of an edge have changed: an edge with the same keys,
      whether one depends on the other, whether the other one is to be merged into this one, and what the edge factory
      answers after the merge, whichever edge has become the owner of which. */
  datatype Lookup = Lookup(orig: Edge?, related: bool, swap: bool, after: map<EdgeRef, Edge>) {
    function Dest(e: Edge): Edge { if swap || orig == null then e else orig }

    function Src(e: Edge): Edge { if swap && orig != null then orig else e }

    /** e would be merged into the edge that is found. */
    predicate Joins(e: Edge, edges: set<Edge>) {
      orig != null && orig in edges && orig != e && !related && !swap && (orig.ignoreCache || !e.ignoreCache)
    }
  }

  /** No edge with the same keys is found. */
  const NO_MERGE := Lookup(null, false, false, map[])

  class Scheduler {
    var queue: seq<Edge>
    var waitq: set<Edge>
    var incoming: map<Edge, seq<Pipe>>
    var outgoing: map<Edge, seq<Pipe>>

    var edges: set<Edge>            // every edge that was ever created
    var pipes: set<Pipe>            // every pipe that was ever created
    var slots: map<EdgeRef, Edge>   // what the edge factory answers now, for vertexes that are active
    var canceling: set<Pipe>        // builds that are canceled while an edge is being dispatched
    var moved: set<Edge>            // the edges whose requests a merge has moved to another edge
    var asked: set<Edge>            // those of them that have been given requests since

    constructor ()
      ensures Valid() == true && edges == {} && pipes == {} && queue == [] && moved == asked == {} && slots == map[]
    {
      queue, waitq, incoming, outgoing := [], {}, map[], map[];
      edges, pipes, slots, canceling, moved, asked := {}, {}, map[], {}, {}, {};
    }

    function In(e: Edge): seq<Pipe>
      reads `incoming
    {
      PipesOf(incoming, e)
    }

    function Out(e: Edge): seq<Pipe>
      reads `outgoing
    {
      PipesOf(outgoing, e)
    }

    ghost function OutSet(e: Edge): set<Pipe>
      reads `outgoing
    {
      set p | p in Out(e)
    }

    /** The pipes that a dispatch of e can change. */
    ghost function Near(e: Edge): set<Pipe>
      reads `incoming, `outgoing, e`mine
    {
      (set p | p in In(e)) + OutSet(e) + e.mine
    }

    // ---- invariants; x is the edge that is being dispatched, or null ----

    ghost predicate QueueOK()
      reads `queue, `waitq, `edges
    {
      Queued(queue, waitq) && waitq <= edges
    }

    ghost predicate PipesOK()
      reads `pipes, `waitq, `edges, pipes
    {
      Awake(pipes, waitq, edges)
    }

    ghost predicate AnswersOK()
      reads `pipes, `edges, pipes`send, edges`result
    {
      Answered(pipes, edges)
    }

    ghost predicate LinksOK()
      reads `pipes, `edges, `moved, edges`mine, edges`done, pipes`from, pipes`recv
    {
      Linked(null, edges, moved, pipes) && Execs(edges, pipes)
    }

    ghost predicate BalanceOK(x: Edge?)
      reads `incoming, `outgoing, `waitq, `asked
    {
      Needed(x, incoming, outgoing, asked) && Served(x, incoming, outgoing, waitq)
    }

    /** The queue, the lists and the pipes. */
    ghost predicate NetOK(x: Edge?)
      reads `queue, `waitq, `incoming, `outgoing, `edges, `pipes, `slots, `moved, `asked, pipes, edges`result
    {
      && waitq <= edges && Answers()
      && Queued(queue, waitq)
      && ListedIn(x, incoming, edges, pipes)
      && ListedOut(x, outgoing, edges, pipes)
      && Awake(pipes, waitq, edges)
      && Answered(pipes, edges)
      && Merged(incoming, moved, asked, edges)
    }

    ghost predicate Answers()
      reads `slots, `edges
    {
      forall r | r in slots :: slots[r] in edges
    }

    ghost predicate Valid()
      reads this, edges, pipes
    {
      NetOK(null) && LinksOK() && BalanceOK(null) && Sound(edges)
    }

    // ---- queue and pipes ----

    /** No waiting edge is forgotten or overtaken. */
    twostate predicate Longer()
      reads `queue, `waitq
    {
      old(queue) <= queue && old(waitq) <= waitq
    }

    method Signal(e: Edge)
      requires QueueOK() && e in edges
      modifies `queue, `waitq
      ensures QueueOK() == true && waitq == old(waitq) + {e} && Longer()
      ensures queue == Signaled(old(queue), e)
    {
      if e !in waitq {
        queue := queue + [e];
        waitq := waitq + {e};
      }
    }

    /** The receiving side withdraws a request; the target is woken up. */
    method Cancel(p: Pipe)
      requires QueueOK() == PipesOK() == true && p in pipes
      modifies `queue, `waitq, p`canceled, p`unseen
      ensures QueueOK() == PipesOK() == true && Longer()
      ensures p.canceled && p.unseen && (p.target != null ==> p.target in waitq)
    {
      p.canceled := true;
      p.unseen := true;
      if p.target != null { Signal(p.target); }
    }

    /** The sending side of a request between edges answers; the requesting edge is woken up. */
    method Finish(e: Edge, p: Pipe)
      requires QueueOK() == PipesOK() == AnswersOK() == true
      requires p in pipes && p.work.Request? && !p.send.completed && e in edges
      requires e.err.None? && !p.canceled && p.desired == COMPLETE ==> e.result.Some?
      modifies `queue, `waitq, p`send, p`unread
      ensures QueueOK() == PipesOK() == AnswersOK() == true && Longer()
      ensures p.send.completed && FinishedBy(e, p)
    {
      var err := e.err;
      if p.canceled && err.None? { err := Some(Canceled); }
      p.Finalize(StateOf(e), err);
      if p.from != null { Signal(p.from); }
    }

    method Update(e: Edge, p: Pipe)
      requires QueueOK() == PipesOK() == AnswersOK() == true
      requires p in pipes && p.work.Request? && !p.send.completed && e in edges
      modifies `queue, `waitq, p`send, p`unread
      ensures QueueOK() == PipesOK() == AnswersOK() == true && Longer()
      ensures p.send == old(p.send).(value := StateOf(e))
    {
      p.Update(StateOf(e));
      if p.from != null { Signal(p.from); }
    }

    // ---- answering incoming requests ----

    /** The state the first n requests that are not canceled ask for. */
    static function Wanted(state: EdgeStatus, inc: seq<Pipe>, canceled: seq<bool>, n: nat): (r: EdgeStatus)
      requires n <= |inc| == |canceled|
      ensures r >= state && forall i | 0 <= i < n && !canceled[i] :: inc[i].desired <= r
      ensures r == state || exists i | 0 <= i < n :: !canceled[i] && r == inc[i].desired
    {
      if n == 0 then state
      else
        var before := Wanted(state, inc, canceled, n - 1);
        if canceled[n - 1] then before else Max(before, inc[n - 1].desired)
    }

    /** The i-th request asks for more than the state and the requests before it, and e cannot answer it yet. */
    static predicate Blocks(e: Edge, active: bool, inc: seq<Pipe>, canceled: seq<bool>, i: nat)
      requires i < |inc| == |canceled|
      reads e`state, e`keys
    {
      && !canceled[i]
      && Wanted(e.state, inc, canceled, i) < inc[i].desired
      && (active || inc[i].desired == COMPLETE || |inc[i].current.keys| == |e.keys|)
    }

    method Decide(e: Edge, inc: seq<Pipe>, canceled: seq<bool>) returns (desired: EdgeStatus, canComplete: bool)
      requires |inc| == |canceled|
      ensures desired == if e.IsComplete() then e.state else Wanted(e.state, inc, canceled, |inc|)
      ensures e.IsComplete() && e.Shape() ==> canComplete
      ensures !e.IsComplete() ==>
                (canComplete <==>
                  && NoneBlocks(e, e.hasActiveOutgoing, inc, canceled)
                  && (e.state < COMPLETE && e.keys == [] && e.hasActiveOutgoing ==>
                    forall i | 0 <= i < |inc| :: canceled[i]))
    {
      canComplete, desired := true, e.state;
      var allCanceled := true;
      if !e.IsComplete() {
        for i := 0 to |inc|
          invariant desired == Wanted(e.state, inc, canceled, i)
          invariant canComplete <==> forall j | 0 <= j < i :: !Blocks(e, e.hasActiveOutgoing, inc, canceled, j)
          invariant allCanceled <==> forall j | 0 <= j < i :: canceled[j]
        {
          ghost var before := canComplete;
          if !canceled[i] {
            allCanceled := false;
            if desired < inc[i].desired {
              desired := inc[i].desired;
              if e.hasActiveOutgoing || inc[i].desired == COMPLETE || |inc[i].current.keys| == |e.keys| {
                canComplete := false;
              }
            }
          }
          assert canComplete == (before && !Blocks(e, e.hasActiveOutgoing, inc, canceled, i));
        }
      }
      if !allCanceled && e.state < COMPLETE && e.keys == [] && e.hasActiveOutgoing {
        canComplete := false;
      }
    }

    static ghost predicate OpenExactlyAt(inc: seq<Pipe>, keep: nat)
      reads (set p | p in inc)`send
    {
      forall i | 0 <= i < |inc| :: inc[i].send.completed <==> i != keep
    }

    /** The answer that finishes a request: the state of e, and its error or that the request was canceled. */
    static ghost predicate FinishedBy(e: Edge, p: Pipe)
      reads e, p`send, p`canceled
    {
      && p.send.completed && p.send.value == StateOf(e)
      && p.send.err == if e.err.None? && p.canceled then Some(Canceled) else e.err
    }

    /** A request is finished, or has been told the state of e if it has another one and is not canceled. */
    static ghost predicate Told(e: Edge, p: Pipe, was: Reply)
      reads e, p`send, p`canceled
    {
      if p.send.completed then FinishedBy(e, p)
      else if p.canceled || p.current.SameAs(e.Snapshot()) then p.send == was
      else p.send == was.(value := StateOf(e))
    }

    /** The request of a build that is canceled while e is being dispatched. */
    predicate Withdrawn(p: Pipe)
      reads `canceling, p`from
    {
      p in canceling && p.from == null
    }

    /** A build that is canceled while its request is being answered. */
    method CancelMeanwhile(p: Pipe)
      requires QueueOK() == PipesOK() == true && p in pipes
      modifies `queue, `waitq, p`canceled, p`unseen
      ensures QueueOK() == PipesOK() == true && Longer()
      ensures p.canceled == (old(p.canceled) || Withdrawn(p))
    {
      if Withdrawn(p) { Cancel(p); }
    }

    static ghost function CanceledOf(inc: seq<Pipe>): (c: seq<bool>)
      reads (set p | p in inc)`canceled
      ensures |c| == |inc| && forall i | 0 <= i < |inc| :: c[i] == inc[i].canceled
    {
      if inc == [] then [] else CanceledOf(inc[..|inc| - 1]) + [inc[|inc| - 1].canceled]
    }

    method ReadCanceled(inc: seq<Pipe>) returns (canceled: seq<bool>)
      ensures canceled == CanceledOf(inc)
    {
      canceled := [];
      for i := 0 to |inc|
        invariant |canceled| == i && forall j | 0 <= j < i :: canceled[j] == inc[j].canceled
      {
        canceled := canceled + [inc[i].canceled];
      }
    }

    method FinishOne(e: Edge, p: Pipe)
      requires QueueOK() == PipesOK() == AnswersOK() == true && e in edges
      requires p in pipes && p.work.Request? && !p.send.completed
      requires e.err.None? && !p.canceled && p.desired == COMPLETE ==> e.result.Some?
      modifies `queue, `waitq, p`send, p`unread, p`canceled, p`unseen
      ensures QueueOK() == PipesOK() == AnswersOK() == true && Longer()
      ensures FinishedBy(e, p) && p.canceled == (old(p.canceled) || Withdrawn(p))
    {
      CancelMeanwhile(p);
      Finish(e, p);
    }

    /** Every request but the one at `keep` is answered; with keep == |inc| all of them are. */
    method FinishAllBut(e: Edge, inc: seq<Pipe>, keep: nat)
      requires QueueOK() == PipesOK() == AnswersOK() == true && e in edges && Open(inc)
      requires forall i | 0 <= i < |inc| && i != keep ::
                 e.err.None? && !inc[i].canceled && inc[i].desired == COMPLETE ==> e.result.Some?
      modifies `queue, `waitq, inc`send, inc`unread, inc`canceled, inc`unseen
      ensures QueueOK() == PipesOK() == AnswersOK() == true && Longer()
      ensures OpenExactlyAt(inc, keep)
      ensures forall i | 0 <= i < |inc| :: inc[i].canceled == (old(inc[i].canceled) || (i != keep && Withdrawn(inc[i])))
      ensures forall i | 0 <= i < |inc| :: if i == keep then inc[i].send == old(inc[i].send) else FinishedBy(e, inc[i])
    {
      hide FinishedBy, Withdrawn, QueueOK, PipesOK, AnswersOK, Edge.Shape;
      for n := 0 to |inc|
        invariant QueueOK() == PipesOK() == AnswersOK() == true && Longer()
        invariant forall i | 0 <= i < |inc| :: inc[i].send.completed <==> i < n && i != keep
        invariant forall i | 0 <= i < |inc| ::
          inc[i].canceled == (old(inc[i].canceled) || (i < n && i != keep && Withdrawn(inc[i])))
        invariant forall i | 0 <= i < n && i != keep :: FinishedBy(e, inc[i])
        invariant keep < |inc| ==> inc[keep].send == old(inc[keep].send)
      {
        if n != keep { FinishOne(e, inc[n]); }
      }
    }

    method CancelAll(all: seq<Pipe>)
      requires QueueOK() == PipesOK() == true && forall p | p in all :: p in pipes
      modifies `queue, `waitq, all`canceled, all`unseen
      ensures QueueOK() == PipesOK() == true && Longer()
      ensures forall p | p in all :: p.canceled
    {
      hide Queued, Awake, Answered;
      for n := 0 to |all|
        invariant QueueOK() == PipesOK() == true && Longer()
        invariant forall i | 0 <= i < n :: all[i].canceled
      {
        Cancel(all[n]);
      }
    }

    method FirstNotCanceled(canceled: seq<bool>) returns (keep: nat)
      ensures canceled != [] ==> keep < |canceled|
      ensures keep == 0 || (keep < |canceled| && !canceled[keep])
      ensures forall i | 0 <= i < |canceled| && !canceled[i] :: keep <= i && !canceled[keep]
    {
      keep := 0;
      for i := 0 to |canceled|
        invariant keep == 0 && forall j | 0 <= j < i :: canceled[j]
      {
        if !canceled[i] { return i; }
      }
    }

    /** Requests that cannot be finished all at once are finished or updated one by one. */
    method AnswerEach(e: Edge, inc: seq<Pipe>, canceled: seq<bool>)
      requires QueueOK() == PipesOK() == AnswersOK() == true && e in edges && Open(inc) && e.Shape()
      requires |canceled| == |inc| && forall i | 0 <= i < |inc| && canceled[i] :: inc[i].canceled
      modifies `queue, `waitq, inc`send, inc`unread, inc`canceled, inc`unseen
      ensures QueueOK() == PipesOK() == AnswersOK() == true && Longer()
      ensures forall i | 0 <= i < |inc| ::
                inc[i].send.completed <==> canceled[i] || (!e.hasActiveOutgoing && e.state >= inc[i].desired)
      ensures forall i | 0 <= i < |inc| :: Told(e, inc[i], old(inc[i].send))
    {
      hide Told, Withdrawn, QueueOK, PipesOK, AnswersOK, Edge.Shape;
      for n := 0 to |inc|
        invariant QueueOK() == PipesOK() == AnswersOK() == true && Longer()
        invariant forall i | 0 <= i < n ::
                    inc[i].send.completed <==> canceled[i] || (!e.hasActiveOutgoing && e.state >= inc[i].desired)
        invariant forall i | 0 <= i < n :: Told(e, inc[i], old(inc[i].send))
        invariant forall i | n <= i < |inc| :: !inc[i].send.completed && inc[i].send == old(inc[i].send)
        invariant forall i | 0 <= i < |inc| && canceled[i] :: inc[i].canceled
      {
        assert inc[n] !in inc[..n];
        AnswerOne(e, inc[n], canceled[n]);
      }
    }

    method AnswerOne(e: Edge, p: Pipe, canceled: bool)
      requires QueueOK() == PipesOK() == AnswersOK() == true && e in edges && e.Shape()
      requires p in pipes && p.work.Request? && !p.send.completed && (canceled ==> p.canceled)
      modifies `queue, `waitq, p`send, p`unread, p`canceled, p`unseen
      ensures QueueOK() == PipesOK() == AnswersOK() == true && Longer()
      ensures p.canceled == (old(p.canceled) || Withdrawn(p))
      ensures p.send.completed <==> canceled || (!e.hasActiveOutgoing && e.state >= p.desired)
      ensures Told(e, p, old(p.send))
    {
      CancelMeanwhile(p);
      if canceled || (!e.hasActiveOutgoing && e.state >= p.desired) {
        Finish(e, p);
      } else if !p.current.SameAs(e.Snapshot()) && !p.canceled {
        Update(e, p);
      }
    }

    static ghost predicate NoneBlocks(e: Edge, active: bool, inc: seq<Pipe>, canceled: seq<bool>)
      requires |inc| == |canceled|
      reads e`state, e`keys
    {
      forall i | 0 <= i < |inc| :: !Blocks(e, active, inc, canceled, i)
    }

    /** A request that is not canceled asks for more than e has, or could get more while e waits for something. */
    static lemma SomeStaysOpen(e: Edge, inc: seq<Pipe>, canceled: seq<bool>) returns (i: nat)
      requires |inc| == |canceled|
      requires NoneBlocks(e, e.hasActiveOutgoing, inc, canceled) ==>
        e.hasActiveOutgoing && exists i | 0 <= i < |inc| :: !canceled[i]
      ensures i < |inc| && !canceled[i]
      ensures e.hasActiveOutgoing || e.state < inc[i].desired <= Wanted(e.state, inc, canceled, |inc|)
    {
      if NoneBlocks(e, e.hasActiveOutgoing, inc, canceled) {
        i :| 0 <= i < |inc| && !canceled[i];
      } else {
        i :| 0 <= i < |inc| && Blocks(e, e.hasActiveOutgoing, inc, canceled, i);
      }
    }

    /** Either all requests are finished, or all but one while outgoing work is being canceled,
        or at least one stays open and the edge has to go on. */
    method RespondToIncoming(e: Edge, inc: seq<Pipe>, all: seq<Pipe>) returns (desired: EdgeStatus, done: bool)
      requires QueueOK() == PipesOK() == AnswersOK() == true && e in edges && e.Shape()
      requires Open(inc) && forall p | p in all :: p in pipes
      modifies `queue, `waitq, inc`send, inc`unread, inc`canceled, inc`unseen, all`canceled, all`unseen
      ensures QueueOK() == PipesOK() == AnswersOK() == true && Longer()
      ensures done && !e.hasActiveOutgoing ==> forall p | p in inc :: p.send.completed
      ensures done && e.hasActiveOutgoing ==>
                && (forall p | p in all :: p.canceled)
                && (inc == [] || exists i | 0 <= i < |inc| :: OpenExactlyAt(inc, i))
      ensures !done ==>
                && !e.IsComplete()
                && (exists p | p in inc :: !p.send.completed)
                && (e.hasActiveOutgoing || e.state < desired)
                && desired == Wanted(e.state, inc, old(CanceledOf(inc)), |inc|)
      ensures done ==> forall p | p in inc :: if p.send.completed then FinishedBy(e, p) else p.send == old(p.send)
      ensures !done ==> forall p | p in inc :: Told(e, p, old(p.send))
      ensures done ==> e.IsComplete() || NoneBlocks(e, e.hasActiveOutgoing, inc, old(CanceledOf(inc)))
      ensures !done && !e.hasActiveOutgoing ==> !NoneBlocks(e, false, inc, old(CanceledOf(inc)))
    {
      hide Queued, Awake, Answered, NoneBlocks, Open, FinishedBy, Told;
      var canceled := ReadCanceled(inc);
      var canComplete: bool;
      desired, canComplete := Decide(e, inc, canceled);
      done := canComplete;
      if canComplete {
        if !e.IsComplete() { NoneBlocksNoneComplete(e, e.hasActiveOutgoing, inc, canceled, |inc|); }
        Complete(e, inc, canceled, all);
      } else {
        ghost var i := SomeStaysOpen(e, inc, canceled);
        AnswerEach(e, inc, canceled);
        assert inc[i] in inc && !inc[i].send.completed;
      }
    }

    /** All requests can be finished, unless outgoing work is active: then it is canceled and one request kept. */
    method Complete(e: Edge, inc: seq<Pipe>, canceled: seq<bool>, all: seq<Pipe>)
      requires QueueOK() == PipesOK() == AnswersOK() == true && e in edges
      requires Open(inc) && forall p | p in all :: p in pipes
      requires |canceled| == |inc| && forall i | 0 <= i < |inc| && canceled[i] :: inc[i].canceled
      requires !e.IsComplete() ==> forall i | 0 <= i < |inc| && !canceled[i] :: inc[i].desired < COMPLETE
      modifies `queue, `waitq, inc`send, inc`unread, inc`canceled, inc`unseen, all`canceled, all`unseen
      ensures QueueOK() == PipesOK() == AnswersOK() == true && Longer()
      ensures !e.hasActiveOutgoing ==> forall p | p in inc :: p.send.completed
      ensures e.hasActiveOutgoing ==>
                (forall p | p in all :: p.canceled) && (inc == [] || exists i | 0 <= i < |inc| :: OpenExactlyAt(inc, i))
      ensures forall p | p in inc :: if p.send.completed then FinishedBy(e, p) else p.send == old(p.send)
    {
      hide Queued, Awake, Answered;
      var keep := |inc|;
      if e.hasActiveOutgoing {
        CancelAll(all);
        keep := FirstNotCanceled(canceled);
        assert inc != [] ==> 0 <= keep < |inc|;
      }
      FinishAllBut(e, inc, keep);
    }

    /** If no request blocks an unfinished edge then none that is not canceled asks for the result. */
    static lemma NoneBlocksNoneComplete(e: Edge, active: bool, inc: seq<Pipe>, canceled: seq<bool>, n: nat)
      requires n <= |inc| == |canceled| && e.state < COMPLETE && NoneBlocks(e, active, inc, canceled)
      ensures Wanted(e.state, inc, canceled, n) < COMPLETE
      ensures forall i | 0 <= i < n && !canceled[i] :: inc[i].desired < COMPLETE
    {
      if n > 0 {
        NoneBlocksNoneComplete(e, active, inc, canceled, n - 1);
        assert !Blocks(e, active, inc, canceled, n - 1);
      }
    }

    // ---- new requests of the edge that is being dispatched ----

    /** A request that runs a function: it is listed under e and completes later, outside the scheduler. */
    method NewFuncRequest(e: Edge, work: Work, ghost x: Edge?) returns (p: Pipe)
      requires NetOK(x) == LinksOK() == true && e in edges && !work.Request? && !work.ExecFn?
      modifies `outgoing, `pipes, e`mine
      ensures NetOK(x) == LinksOK() == true && Made(e, p) && p.work == work
      ensures old(e.Wired()) ==> e.Wired() == true
      ensures outgoing == old(outgoing)[e := old(Out(e)) + [p]]
    {
      hide ListedIn, ListedOut, Awake, Answered, Queued, Merged, Edge.Wired;
      p := new Pipe(e, null, work, INITIAL, NO_STATE);
      assert p !in e.done;
      LinkMore(null, edges, moved, pipes, p);
      ExecMore(edges, pipes, p);
      AddFuncPipe(e, p, x);
      Remember(e, p);
    }

    /** p is a new request of e. */
    twostate predicate Made(e: Edge, new p: Pipe)
      reads `pipes, e`mine, p`recv, p`send, p`unread
    {
      fresh(p) && p.recv == p.send == NO_REPLY && !p.unread && e.mine == old(e.mine) + {p} && pipes == old(pipes) + {p}
    }

    ghost method Remember(e: Edge, p: Pipe)
      requires LinksOK() == true && e in edges && p in pipes && !p.work.ExecFn?
      requires p.creator == p.from == e && !p.recv.completed && p !in e.done
      modifies e`mine
      ensures LinksOK() == true && e.mine == old(e.mine) + {p}
      ensures old(e.Wired()) ==> e.Wired() == true
    {
      AddKnown(e, e.mine, e.done, true, e in moved, p);
      e.mine := e.mine + {p};
    }

    /** A request to execute, or to load, which becomes the current one. */
    method NewExec(e: Edge, load: bool)
      requires NetOK(e) == LinksOK() == true && e in edges
      requires e.Shape() == e.Wired() == e.Synced() == true && e.execReq == null && e.result.None?
      requires if load then e.cacheRecords != map[] else e.allDepsCompleted
      modifies `outgoing, `pipes, e`mine, e`execReq, e`execCacheLoad
      ensures NetOK(e) == LinksOK() == e.Shape() == e.Wired() == e.Synced() == true
      ensures e.execReq != null && Made(e, e.execReq) && e.execCacheLoad == load
      ensures outgoing == old(outgoing)[e := old(Out(e)) + [e.execReq]]
    {
      hide NetOK, Linked, Execs, Edge.Shape, Edge.Wired, Edge.Synced;
      ghost var before := pipes;
      LinksKnown(e);
      var p := new Pipe(e, null, ExecFn(load), INITIAL, NO_STATE);
      AddFuncPipe(e, p, e);
      RememberExec(e, p, load, before);
    }

    lemma LinksKnown(e: Edge)
      requires Linked(null, edges, moved, pipes) == true && e in edges
      ensures e.done <= e.mine <= pipes
    {
    }

    method RememberExec(e: Edge, p: Pipe, load: bool, ghost before: set<Pipe>)
      requires e in edges && p !in before && pipes == before + {p}
      requires Linked(null, edges, moved, before) == Execs(edges, before) == true
      requires p.creator == p.from == e && p.recv == NO_REPLY && p.work == ExecFn(load)
      requires e.Shape() == e.Wired() == e.Synced() == true && e.execReq == null && e.result.None?
      requires if load then e.cacheRecords != map[] else e.allDepsCompleted
      modifies e`mine, e`execReq, e`execCacheLoad
      ensures LinksOK() == e.Shape() == e.Wired() == e.Synced() == true
      ensures e.execReq == p && e.execCacheLoad == load && e.mine == old(e.mine) + {p}
    {
      hide Edge.Shape, Edge.Wired, Edge.Synced;
      LinkMore(null, edges, moved, before, p);
      AddKnown(e, e.mine, e.done, true, e in moved, p);
      e.AskExec(p, load);
    }

    method AddFuncPipe(e: Edge, p: Pipe, ghost x: Edge?)
      requires NetOK(x) == true && e in edges && p !in pipes
      requires p.from == p.creator == e && p.target == null && !p.work.Request?
      requires p.send == p.recv == NO_REPLY && !p.unread
      modifies `outgoing, `pipes
      ensures NetOK(x) == true && pipes == old(pipes) + {p} && outgoing == old(outgoing)[e := old(Out(e)) + [p]]
    {
      hide ListedIn, ListedOut, Awake, Answered, Queued, Merged;
      ListOut(x, outgoing, edges, pipes, e, p);
      ListIn(x, incoming, edges, pipes, null, p);
      AddAwake(pipes, waitq, edges, p);
      AddAnswer(pipes, edges, p);
      outgoing := outgoing[e := Out(e) + [p]];
      pipes := pipes + {p};
    }

    /** A request to another edge; the target is woken up. */
    method NewPipe(e: Edge, target: Edge, desired: EdgeStatus, current: EdgeState) returns (p: Pipe)
      requires NetOK(e) == LinksOK() == BalanceOK(e) == true && e in edges && target in edges
      modifies `queue, `waitq, `incoming, `outgoing, `pipes, `asked, e`mine
      ensures NetOK(e) == LinksOK() == BalanceOK(e) == true && waitq == old(waitq) + {target} && Longer()
      ensures Made(e, p) && p.work == Request && p.desired == desired && p.current == current
      ensures old(e.Wired()) ==> e.Wired() == true
      ensures outgoing == old(outgoing)[e := old(Out(e)) + [p]]
      ensures incoming == old(incoming)[target := old(In(target)) + [p]]
      ensures asked == old(asked) + (if target in moved then {target} else {})
    {
      hide ListedIn, ListedOut, Awake, Answered, Queued, Merged, Edge.Wired;
      p := new Pipe(e, target, Request, desired, current);
      assert p !in e.done;
      LinkMore(null, edges, moved, pipes, p);
      ExecMore(edges, pipes, p);
      AddRequestPipe(e, target, p);
      Remember(e, p);
    }

    method AddRequestPipe(e: Edge, target: Edge, p: Pipe)
      requires NetOK(e) == BalanceOK(e) == true && e in edges && target in edges && p !in pipes
      requires p.from == p.creator == e && p.target == target && p.work == Request
      requires p.send == p.recv == NO_REPLY && !p.unread
      modifies `queue, `waitq, `incoming, `outgoing, `pipes, `asked
      ensures NetOK(e) == BalanceOK(e) == true && waitq == old(waitq) + {target} && pipes == old(pipes) + {p}
        && Longer()
      ensures outgoing == old(outgoing)[e := old(Out(e)) + [p]]
      ensures incoming == old(incoming)[target := old(In(target)) + [p]]
      ensures asked == old(asked) + (if target in moved then {target} else {})
    {
      hide ListedIn, ListedOut, Awake, Answered, Queued, Needed, Served;
      Wake(target);
      ListOut(e, outgoing, edges, pipes, e, p);
      ListIn(e, incoming, edges, pipes, target, p);
      AddAwake(pipes, waitq, edges, p);
      AddAnswer(pipes, edges, p);
      ServedLonger(e, incoming, outgoing, old(waitq), waitq);
      BalanceMore(incoming, outgoing, waitq, asked, e, target, In(target) + [p], Out(e) + [p],
                  if target in moved then {target} else {});
      outgoing := outgoing[e := Out(e) + [p]];
      incoming := incoming[target := In(target) + [p]];
      pipes := pipes + {p};
      asked := asked + if target in moved then {target} else {};
    }

    method Wake(e: Edge)
      requires QueueOK() == PipesOK() == true && e in edges
      modifies `queue, `waitq
      ensures QueueOK() == PipesOK() == true && waitq == old(waitq) + {e} && Longer()
    {
      Signal(e);
    }

    /** ef.getEdge: the edge of an output of an active vertex. */
    method GetEdge(ref: EdgeRef) returns (t: Edge?)
      ensures t == if ref in slots then slots[ref] else null
    {
      t := if ref in slots then slots[ref] else null;
    }

    /** While e is being dispatched pipes are only added, none of them is answered yet, and nobody else's requests
        change. */
    twostate predicate Grown(e: Edge)
      reads `pipes, `queue, `waitq, `outgoing, `asked, e`mine
    {
      && fresh(e.mine - old(e.mine))
      && old(pipes) <= pipes && fresh(pipes - old(pipes))
      && old(queue) <= queue && old(waitq) <= waitq && outgoing - {e} == old(outgoing) - {e} && old(asked) <= asked
      && (Unasked(old(slots), old(moved)) ==> asked == old(asked))
    }

    /** No edge that has been merged is what the edge factory answers. */
    static predicate Unasked(slots: map<EdgeRef, Edge>, moved: set<Edge>) {
      forall r | r in slots :: slots[r] !in moved
    }

    /** Everything that holds while e is being dispatched, apart from e itself. */
    ghost predicate Calm(e: Edge)
      reads this, pipes, edges`result, edges`mine, edges`done, edges - {e}
    {
      e in edges && NetOK(e) && LinksOK() && BalanceOK(e) && Sound(edges - {e})
    }

    /** A request to the edge of an input, or a request that fails when no edge is known for the input. */
    method NewInputRequest(e: Edge, ref: EdgeRef, desired: EdgeStatus, current: EdgeState) returns (p: Pipe)
      requires Calm(e) == true
      modifies `queue, `waitq, `incoming, `outgoing, `pipes, `asked, e`mine
      ensures Calm(e) == true && Grown(e) == true && Made(e, p)
      ensures p.work == if ref in slots then Request else BrokenGraph
      ensures p.work == Request ==> p.desired == desired && p.current == current
      ensures old(e.Wired()) ==> e.Wired() == true
      ensures Out(e) == old(Out(e)) + [p]
    {
      hide Calm, Unasked, Edge.Wired;
      var t := GetEdge(ref);
      if t == null {
        p := NewFunc(e, BrokenGraph);
      } else {
        SlotsAreEdges(e, ref);
        p := AskEdge(e, t, desired, current);
      }
    }

    lemma SlotsAreEdges(e: Edge, ref: EdgeRef)
      requires Calm(e) && ref in slots
      ensures slots[ref] in edges && (Unasked(slots, moved) ==> slots[ref] !in moved)
    {
    }

    method AskEdge(e: Edge, target: Edge, desired: EdgeStatus, current: EdgeState) returns (p: Pipe)
      requires Calm(e) == true && target in edges && (Unasked(slots, moved) ==> target !in moved)
      modifies `queue, `waitq, `incoming, `outgoing, `pipes, `asked, e`mine
      ensures Calm(e) == true && Made(e, p) && p.work == Request && p.desired == desired && p.current == current
      ensures old(e.Wired()) ==> e.Wired() == true
      ensures Grown(e) == true && Out(e) == old(Out(e)) + [p]
    {
      hide Unasked, ListedIn, ListedOut, Awake, Answered, Queued, Linked, Execs, Sound, Merged, Needed, Served,
        Edge.Wired;
      p := NewPipe(e, target, desired, current);
    }

    /** A request to input i, unless one for the same state is open. A request that fails because no edge is known for
        the input has no payload, but the state it asks for is read while it is open. */
    method CreateOutgoingRequest(e: Edge, i: nat, desired: EdgeStatus) returns (added: bool, nilRead: bool)
      requires Calm(e) == e.Shape() == e.Wired() == e.Synced() == true && i < |e.deps|
      modifies `queue, `waitq, `incoming, `outgoing, `pipes, `asked, e`mine, e`deps, e`depRequests,
               e.mine`canceled, e.mine`unseen
      ensures Calm(e) == e.Shape() == e.Wired() == e.Synced() == true
      ensures Grown(e) == true
      ensures added ==> More(old(Out(e)), Out(e))
      ensures !added ==> SameRequestsOf(e)
      ensures OnlyAsked(e, i) && e.KeepsWants()
      ensures e.deps[i].req != null && !e.deps[i].req.recv.completed
      ensures added == (old(e.deps[i].req) == null || old(e.deps[i].req).recv.completed
        || old(e.deps[i].req).desired != desired)
      ensures added ==> fresh(e.deps[i].req) && (e.deps[i].req.work == Request ==> e.deps[i].req.desired == desired)
      ensures added ==> e.deps[i].req.work == if e.inputs[i] in slots then Request else BrokenGraph
      ensures nilRead <==> old(e.deps[i].req != null && !e.deps[i].req.recv.completed
        && e.deps[i].req.work == BrokenGraph)
      ensures added && old(e.deps[i].req) != null && !old(e.deps[i].req).recv.completed ==> old(e.deps[i].req).canceled
    {
      hide Calm, Unasked, Edge.Shape, Edge.Wired, Edge.Synced, More;
      OwnRequests(e);
      var req := e.deps[i].req;
      nilRead := false;
      if req != null && !req.recv.completed {
        nilRead := req.work == BrokenGraph;
        if req.desired == desired { added := false; return; }
        CancelOwn(e, req);
      }
      AddRequest(e, i, desired);
      added := true;
    }

    lemma CalmAt(e: Edge)
      requires Valid() == true && e in edges
      ensures Calm(e) && e.Shape() && e.Wired() && e.Synced()
    {
      SoundApart(edges, e);
    }

    /** The first input of e has no edge; it is asked twice. */
    method AskTwice(e: Edge) returns (nilRead: bool)
      requires Valid() == true && e in edges && |e.inputs| > 0 && e.inputs[0] !in slots && !e.depsInit
      modifies this, e, pipes
      ensures nilRead
    {
      hide Valid, Calm, Edge.Shape, Edge.Wired, Edge.Synced;
      CalmAt(e);
      e.EnsureDepsInitialized();
      assert e.deps[0] in e.deps;
      OwnRequests(e);
      var added;
      added, nilRead := CreateOutgoingRequest(e, 0, CACHE_FAST);
      OwnRequests(e);
      added, nilRead := CreateOutgoingRequest(e, 0, COMPLETE);
    }

    /** e has made no request. */
    twostate predicate SameRequestsOf(e: Edge)
      reads `pipes, `outgoing, e`deps, e`mine
    {
      Out(e) == old(Out(e)) && e.deps == old(e.deps) && pipes == old(pipes) && e.mine == old(e.mine)
    }

    /** Nothing about the inputs has changed but the request to input i. */
    twostate predicate OnlyAsked(e: Edge, i: nat)
      reads e`deps
    {
      i < |old(e.deps)| == |e.deps| && e.deps == old(e.deps)[i := old(e.deps)[i].(req := e.deps[i].req)]
    }

    method AddRequest(e: Edge, i: nat, desired: EdgeStatus)
      requires Calm(e) == e.Shape() == e.Wired() == e.Synced() == true && i < |e.deps| && |e.deps| == |e.inputs|
      modifies `queue, `waitq, `incoming, `outgoing, `pipes, `asked, e`mine, e`deps, e`depRequests
      ensures Calm(e) == e.Shape() == e.Wired() == e.Synced() == true
      ensures Grown(e) == true
      ensures More(old(Out(e)), Out(e))
      ensures OnlyAsked(e, i) && e.KeepsWants()
      ensures e.deps[i].req != null && fresh(e.deps[i].req) && e.deps[i].req.recv == NO_REPLY
      ensures e.deps[i].req.work == if e.inputs[i] in slots then Request else BrokenGraph
      ensures e.deps[i].req.work == Request ==> e.deps[i].req.desired == desired
    {
      hide Calm, Unasked, Edge.Shape, Edge.Wired, Edge.Synced;
      OwnRequests(e);
      var p := NewInputRequest(e, e.inputs[i], desired, e.deps[i].Snapshot());
      e.AskInput(i, p);
    }

    lemma OwnRequests(e: Edge)
      requires Calm(e) == e.Shape() == e.Wired() == true
      ensures e.done <= e.mine <= pipes && e.depRequests.Keys <= e.mine && (e.depsInit ==> |e.deps| == |e.inputs|)
      ensures forall i | 0 <= i < |e.deps| && e.deps[i].req != null :: e.deps[i].req in e.mine
      ensures |e.deps| > 0 ==> e.depsInit
      ensures forall p | p in e.done :: p.recv.completed
      ensures e.FitsMap() && (e.cacheMap.Some? ==> e.depsInit)
    {
    }

    method CancelOwn(e: Edge, p: Pipe)
      requires Calm(e) == true && p in pipes
      modifies `queue, `waitq, p`canceled, p`unseen
      ensures Calm(e) == true && Longer() && p.canceled
    {
      hide ListedIn, ListedOut, Awake, Answered, Queued, Linked, Execs, Sound;
      Cancel(p);
    }

    /** A completed input with a content-based key or preprocess function has that function run once. */
    method ComputeCacheKeyFromDep(e: Edge, i: nat) returns (added: bool)
      requires Calm(e) == e.Shape() == e.Wired() == e.Synced() == true && i < |e.deps| && e.FitsMap()
      modifies `outgoing, `pipes, e`mine, e`deps
      ensures Calm(e) == e.Shape() == e.Wired() == e.Synced() == true
      ensures Grown(e) == true
      ensures added == old(e.NeedsSlowKey(i))
      ensures if added then More(old(Out(e)), Out(e)) else SameRequestsOf(e)
      ensures added ==> e.deps == old(e.deps)[i := old(e.deps[i]).(slowCacheReq := e.deps[i].slowCacheReq)]
      ensures added ==> e.deps[i].slowCacheReq != null && Out(e) == old(Out(e)) + [e.deps[i].slowCacheReq]
      ensures added ==> e.deps[i].slowCacheReq.work == SlowCacheFn(i)
      ensures |e.deps| == old(|e.deps|) && e.KeepsWants()
    {
      hide Calm, Unasked, Edge.Shape, Edge.Wired, Edge.Synced;
      OwnRequests(e);
      added := false;
      var d := e.deps[i];
      if d.state != COMPLETE || d.slowCacheReq != null || e.cacheMap.None? { return; }
      var info := e.cacheMap.value.deps[i];
      if !info.hasPre && !info.hasSlow { return; }
      var p := NewFunc(e, SlowCacheFn(i));
      e.AskSlowKey(i, p);
      added := true;
    }

    /** NewFuncRequest for the edge that is being dispatched. */
    method NewFunc(e: Edge, work: Work) returns (p: Pipe)
      requires Calm(e) == true && !work.Request? && !work.ExecFn?
      modifies `outgoing, `pipes, e`mine
      ensures Calm(e) == true && Made(e, p) && p.work == work
      ensures old(e.Wired()) ==> e.Wired() == true
      ensures Grown(e) == true && Out(e) == old(Out(e)) + [p]
    {
      hide Unasked, ListedIn, ListedOut, Awake, Answered, Queued, Linked, Execs, Sound, Merged, Edge.Wired;
      p := NewFuncRequest(e, work, e);
    }

    method CreateInputRequests(e: Edge, desired: EdgeStatus, force: bool) returns (added: bool)
      requires Calm(e) == e.Shape() == e.Wired() == e.Synced() == true && e.FitsMap()
      modifies `queue, `waitq, `incoming, `outgoing, `pipes, `asked, e`mine, e`deps, e`depsInit, e`depRequests,
               e.mine`canceled, e.mine`unseen
      ensures Calm(e) == e.Shape() == e.Wired() == e.Synced() == true && e.depsInit
      ensures Grown(e) == true
      ensures if added then More(old(Out(e)), Out(e)) else Out(e) == old(Out(e)) && e.mine == old(e.mine)
      ensures old(e.depsInit) ==>
        added == !old(e.AllWaiting(desired, force)) && (!added ==> SameRequestsOf(e))
      ensures old(e.depsInit) ==> AskedTo(e.deps, old(e.deps), old(e.Wants(|e.deps|, desired, force)), |e.deps|)
    {
      hide Calm, Unasked, Edge.Shape, Edge.Wired, Edge.Synced, Edge.AllWaiting, Edge.Wants, AskedTo, More;
      OwnRequests(e);
      e.EnsureDepsInitialized();
      OwnRequests(e);
      added := RequestFromAll(e, desired, force);
    }

    method RequestFromAll(e: Edge, desired: EdgeStatus, force: bool) returns (added: bool)
      requires Calm(e) == e.Shape() == e.Wired() == e.Synced() == true && e.depsInit && e.FitsMap()
      modifies `queue, `waitq, `incoming, `outgoing, `pipes, `asked, e`mine, e`deps, e`depRequests,
               e.mine`canceled, e.mine`unseen
      ensures Calm(e) == e.Shape() == e.Wired() == e.Synced() == true
      ensures Grown(e) == true
      ensures if added then More(old(Out(e)), Out(e)) else SameRequestsOf(e)
      ensures added == !old(e.AllWaiting(desired, force))
      ensures AskedTo(e.deps, old(e.deps), old(e.Wants(|e.deps|, desired, force)), |e.deps|)
    {
      hide Calm, Unasked, Edge.Shape, Edge.Wired, Edge.Synced, Edge.Waiting, Edge.DesiredStateDep, Edge.Wants,
        Edge.FitsMap, AskedFor, AskedTo, More;
      added := false;
      ghost var before, wants := e.deps, e.Wants(|e.deps|, desired, force);
      AskedNone(before, wants);
      for i := 0 to |e.deps|
        invariant Calm(e) == e.Shape() == e.Wired() == e.Synced() == true && |e.deps| == |old(e.deps)|
        invariant Grown(e) == true
        invariant if added then More(old(Out(e)), Out(e)) else SameRequestsOf(e)
        invariant added == !old(e.WaitingTo(i, desired, force))
        invariant AskedTo(e.deps, before, wants, i) && e.FitsMap() && e.Wants(|e.deps|, desired, force) == wants
      {
        OwnRequests(e);
        ghost var between := Out(e);
        var more := RequestFromNext(e, i, desired, force, before, wants);
        MoreAfter(old(Out(e)), between, Out(e));
        added := added || more;
      }
    }

    /** The next input is asked, after those before it. */
    method RequestFromNext(e: Edge, i: nat, desired: EdgeStatus, force: bool, ghost before: seq<Dep<Pipe?>>,
                           ghost wants: seq<EdgeStatus>) returns (added: bool)
      requires Calm(e) == e.Shape() == e.Wired() == e.Synced() == true && i < |e.deps| && e.depsInit && e.FitsMap()
      requires AskedTo(e.deps, before, wants, i) && e.Wants(|e.deps|, desired, force) == wants
      modifies `queue, `waitq, `incoming, `outgoing, `pipes, `asked, e`mine, e`deps, e`depRequests,
               e.mine`canceled, e.mine`unseen
      ensures Calm(e) == e.Shape() == e.Wired() == e.Synced() == true && |e.deps| == old(|e.deps|)
      ensures Grown(e) == true
      ensures if added then More(old(Out(e)), Out(e)) else SameRequestsOf(e)
      ensures added == !old(e.Waiting(i, desired, force))
      ensures e.FitsMap() && AskedTo(e.deps, before, wants, i + 1) && e.Wants(|e.deps|, desired, force) == wants
    {
      hide Calm, Unasked, Edge.Shape, Edge.Wired, Edge.Synced, Edge.Waiting, Edge.DesiredStateDep, Edge.Wants, AskedFor,
        AskedTo, More, Grown, SameRequestsOf;
      ghost var deps := e.deps;
      added := RequestFromDep(e, i, desired, force);
      AskedNext(deps, e.deps, before, wants, i);
    }

    method RequestFromDep(e: Edge, i: nat, desired: EdgeStatus, force: bool) returns (added: bool)
      requires Calm(e) == e.Shape() == e.Wired() == e.Synced() == true && i < |e.deps| && e.depsInit && e.FitsMap()
      modifies `queue, `waitq, `incoming, `outgoing, `pipes, `asked, e`mine, e`deps, e`depRequests,
               e.mine`canceled, e.mine`unseen
      ensures Calm(e) == e.Shape() == e.Wired() == e.Synced() == true && |e.deps| == old(|e.deps|)
      ensures Grown(e) == true
      ensures if added then More(old(Out(e)), Out(e)) else SameRequestsOf(e)
      ensures added == !old(e.Waiting(i, desired, force))
      ensures e.deps == old(e.deps)[i := e.deps[i]]
      ensures e.FitsMap() && e.Wants(|e.deps|, desired, force) == old(e.Wants(|e.deps|, desired, force))
      ensures AskedFor(e.deps[i], old(e.deps[i]), old(e.DesiredStateDep(i, desired, force)))
    {
      hide Calm, Unasked, Edge.Shape, Edge.Wired, Edge.Synced;
      OwnRequests(e);
      added := AskForState(e, i, desired, force);
      var more := ComputeCacheKeyFromDep(e, i);
      added := added || more;
    }

    method AskForState(e: Edge, i: nat, desired: EdgeStatus, force: bool) returns (added: bool)
      requires Calm(e) == e.Shape() == e.Wired() == e.Synced() == true && i < |e.deps| && e.depsInit && e.FitsMap()
      modifies `queue, `waitq, `incoming, `outgoing, `pipes, `asked, e`mine, e`deps, e`depRequests,
               e.mine`canceled, e.mine`unseen
      ensures Calm(e) == e.Shape() == e.Wired() == e.Synced() == true
      ensures Grown(e) == true
      ensures if added then More(old(Out(e)), Out(e)) else SameRequestsOf(e)
      ensures OnlyAsked(e, i) && e.KeepsWants()
      ensures AskedFor(e.deps[i], old(e.deps[i]), old(e.DesiredStateDep(i, desired, force)))
      ensures added == (old(e.deps[i].state) < old(e.DesiredStateDep(i, desired, force)) &&
        (old(e.deps[i].req) == null || old(e.deps[i].req).recv.completed
         || old(e.deps[i].req).desired != old(e.DesiredStateDep(i, desired, force))))
    {
      hide Calm, Unasked, Edge.Shape, Edge.Wired, Edge.Synced, More;
      OwnRequests(e);
      var want := e.DesiredStateDep(i, desired, force);
      added := false;
      if e.deps[i].state < want {
        var nilRead;
        added, nilRead := CreateOutgoingRequest(e, i, want);
      }
    }

    method RequestCacheMap(e: Edge) returns (made: bool)
      requires Calm(e) == e.Shape() == e.Wired() == e.Synced() == true && !e.IsComplete()
      modifies `outgoing, `pipes, e`mine, e`cacheMapReq
      ensures Calm(e) == e.Shape() == e.Wired() == e.Synced() == true
      ensures Grown(e) == true
      ensures made == old(e.cacheMapReq == null && (e.cacheMap.None? || e.cacheRecords == map[]))
      ensures made ==> e.cacheMapReq != null && Out(e) == old(Out(e)) + [e.cacheMapReq] && Made(e, e.cacheMapReq)
      ensures !made ==> SameRequestsOf(e) && e.cacheMapReq == old(e.cacheMapReq)
      ensures MapAsked(e)
    {
      hide Calm, Unasked, Edge.Shape, Edge.Wired, Edge.Synced;
      made := e.cacheMapReq == null && (e.cacheMap.None? || e.cacheRecords == map[]);
      if made {
        OwnRequests(e);
        NoExecYet(e);
        var p := NewFunc(e, CacheMapFn);
        e.AskCacheMap(p);
      }
    }

    lemma NoExecYet(e: Edge)
      requires e.Shape() == e.Wired() == true && e.result.None?
      requires e.cacheMapReq == null && (e.cacheMap.None? || e.cacheRecords == map[])
      ensures e.execReq == null
    {
    }

    /** The edge loads its result from the cache, or executes when all inputs are done. If keys have
        changed since the last merge attempt, that attempt comes first. */
    method ExecIfPossible(e: Edge) returns (ok: bool)
      requires Calm(e) == e.Shape() == e.Wired() == e.Synced() == true && e.execReq == null && e.result.None?
      modifies `outgoing, `pipes, e`mine, e`execReq, e`execCacheLoad, `queue, `waitq, e.mine`canceled, e.mine`unseen
      ensures Calm(e) == e.Shape() == e.Wired() == e.Synced() == true
      ensures Grown(e) == true
      ensures ok <==> e.cacheRecords != map[] || e.allDepsCompleted
      ensures if ok then More(old(Out(e)), Out(e)) else SameRequestsOf(e)
      ensures e.execReq != null <==> ok && !e.keysDidChange
      ensures ok && !e.keysDidChange ==>
        Out(e) == old(Out(e)) + [e.execReq] && e.execCacheLoad == (e.cacheRecords != map[])
      ensures e.execReq == null || !e.execCacheLoad ==> forall p | p in old(e.mine) :: p.canceled == old(p.canceled)
      ensures ok && e.keysDidChange ==> Postpones(old(Out(e)), Out(e))
      ensures ok && e.execReq != null && e.execCacheLoad ==> forall p | p in e.depRequests :: p in pipes && p.canceled
    {
      hide Calm, Unasked, Edge.Shape, Edge.Wired, Edge.Synced;
      ok := e.cacheRecords != map[] || e.allDepsCompleted;
      if ok {
        if e.keysDidChange {
          var _ := NewFunc(e, Postpone);
        } else {
          StartExec(e);
        }
      }
    }

    /** Loads a cached result, or runs the operation. */
    method StartExec(e: Edge)
      requires Calm(e) == e.Shape() == e.Wired() == e.Synced() == true && e.execReq == null && e.result.None?
      requires e.cacheRecords != map[] || e.allDepsCompleted
      modifies `outgoing, `pipes, e`mine, e`execReq, e`execCacheLoad, `queue, `waitq, e.mine`canceled, e.mine`unseen
      ensures Calm(e) == e.Shape() == e.Wired() == e.Synced() == true
      ensures Grown(e) == true
      ensures More(old(Out(e)), Out(e)) && e.execReq != null && e.execCacheLoad == (e.cacheRecords != map[])
      ensures Out(e) == old(Out(e)) + [e.execReq]
      ensures !e.execCacheLoad ==> forall p | p in old(e.mine) :: p.canceled == old(p.canceled)
      ensures e.execCacheLoad ==> forall p | p in e.depRequests :: p in pipes && p.canceled
    {
      hide Calm, Unasked, Edge.Shape, Edge.Wired, Edge.Synced;
      var load := e.cacheRecords != map[];
      OwnRequests(e);
      AskToExec(e, load);
      if load { CancelRequests(e); }
    }

    method AskToExec(e: Edge, load: bool)
      requires Calm(e) == e.Shape() == e.Wired() == e.Synced() == true && e.execReq == null && e.result.None?
      requires if load then e.cacheRecords != map[] else e.allDepsCompleted
      modifies `outgoing, `pipes, e`mine, e`execReq, e`execCacheLoad
      ensures Calm(e) == e.Shape() == e.Wired() == e.Synced() == true
      ensures Grown(e) == true
      ensures More(old(Out(e)), Out(e)) && e.execReq != null && e.execCacheLoad == load
      ensures Out(e) == old(Out(e)) + [e.execReq]
    {
      hide ListedIn, ListedOut, Awake, Answered, Queued, Linked, Execs, Sound, Merged, Edge.Shape, Edge.Wired,
        Edge.Synced;
      NewExec(e, load);
    }

    method CancelRequests(e: Edge)
      requires Calm(e) == e.Shape() == e.Wired() == true
      modifies `queue, `waitq, e.depRequests.Keys`canceled, e.depRequests.Keys`unseen
      ensures Calm(e) == true && Longer()
      ensures forall p | p in e.depRequests :: p in pipes && p.canceled
    {
      hide Calm, Unasked, Edge.Shape, Edge.Wired;
      OwnRequests(e);
      var todo := e.depRequests.Keys;
      while todo != {}
        invariant Calm(e) == true && Longer() && todo <= e.depRequests.Keys
        invariant forall p | p in e.depRequests.Keys - todo :: p.canceled
        decreases todo
      {
        var p :| p in todo;
        CancelOwn(e, p);
        todo := todo - {p};
      }
    }

    /** The edge goes on after some request stayed open. Unless it waits for something already, it makes a request
        exactly if it has something to ask. */
    method GoOn(e: Edge, desired: EdgeStatus)
      requires Calm(e) == e.Shape() == e.Wired() == e.Synced() == true && e.Started() && !e.IsComplete() && e.FitsMap()
      modifies `queue, `waitq, `incoming, `outgoing, `pipes, `asked, e`mine, e`deps, e`depsInit, e`depRequests,
               e`cacheMapReq, e`execReq, e`execCacheLoad, e.mine`canceled, e.mine`unseen
      ensures Calm(e) == e.Shape() == e.Wired() == e.Synced() == true && e.Started()
      ensures Grown(e) == true
      ensures More(old(Out(e)), Out(e)) || Out(e) == old(Out(e))
      ensures !e.hasActiveOutgoing ==> (Out(e) == old(Out(e)) <==> old(e.NothingToAsk(desired)))
      ensures MapAsked(e)
      ensures desired == COMPLETE ==> Runs(e, e.keysDidChange)
    {
      hide Runs, MapAsked, Calm, Unasked, Edge.Shape, Edge.Wired, Edge.Synced, Edge.AllWaiting, Grown;
      var made, executing := MakeRequests(e, desired);
    }

    method MakeRequests(e: Edge, desired: EdgeStatus) returns (made: bool, executing: bool)
      requires Calm(e) == e.Shape() == e.Wired() == e.Synced() == true && e.Started() && !e.IsComplete() && e.FitsMap()
      modifies `queue, `waitq, `incoming, `outgoing, `pipes, `asked, e`mine, e`deps, e`depsInit, e`depRequests,
               e`cacheMapReq, e`execReq, e`execCacheLoad, e.mine`canceled, e.mine`unseen
      ensures Calm(e) == e.Shape() == e.Wired() == e.Synced() == true && e.Started()
      ensures Grown(e) == true && MapAsked(e)
      ensures desired == COMPLETE ==> Runs(e, e.keysDidChange)
      ensures made == old(e.cacheMapReq == null && (e.cacheMap.None? || e.cacheRecords == map[]))
      ensures executing <==>
        old(e.execReq) != null || (desired == COMPLETE && (e.cacheRecords != map[] || e.allDepsCompleted))
      ensures More(old(Out(e)), Out(e)) || Out(e) == old(Out(e))
      ensures made || (executing && old(e.execReq) == null) ==> Out(e) != old(Out(e))
      ensures !made && executing && old(e.execReq) != null ==> Out(e) == old(Out(e))
      ensures !made && !executing && !e.hasActiveOutgoing ==>
        (Out(e) == old(Out(e)) <==> old(e.AllWaiting(desired, false)) && old(e.AllWaiting(desired, true)))
    {
      hide Edge.FitsMap, AskedInTurn, Runs, MapAsked, Calm, Unasked, Edge.Shape, Edge.Wired, Edge.Synced,
        Edge.AllWaiting, SameRequestsOf;
      OwnRequests(e);
      made, executing := StartWork(e, desired);
      if executing {
        InputsReady(e);
      } else {
        AskInputs(e, desired, made);
      }
    }

    /** e waits for a cache map or has records; a new request for a cache map is not answered yet. */
    twostate predicate MapAsked(e: Edge)
      reads e`cacheMapReq, e`cacheMap, e`cacheRecords, (if e.cacheMapReq == null then {} else {e.cacheMapReq})`send
    {
      && (e.cacheMapReq != null || (e.cacheMap.Some? && e.cacheRecords != map[]))
      && (old(e.cacheMapReq) == null && e.cacheMapReq != null ==> !e.cacheMapReq.send.completed)
    }

    /** Once there are records or all inputs are done, e executes, unless keys have changed. */
    ghost predicate Runs(e: Edge, changed: bool)
      reads e`cacheRecords, e`allDepsCompleted, e`execReq
    {
      (e.cacheRecords != map[] || e.allDepsCompleted) && !changed ==> e.execReq != null
    }

    method StartWork(e: Edge, desired: EdgeStatus) returns (made: bool, executing: bool)
      requires Calm(e) == e.Shape() == e.Wired() == e.Synced() == true && !e.IsComplete()
      modifies `outgoing, `pipes, `queue, `waitq, e`mine, e`cacheMapReq, e`execReq, e`execCacheLoad,
               e.mine`canceled, e.mine`unseen
      ensures Calm(e) == e.Shape() == e.Wired() == e.Synced() == true && Grown(e) == true
      ensures made == old(e.cacheMapReq == null && (e.cacheMap.None? || e.cacheRecords == map[]))
      ensures executing <==>
        old(e.execReq) != null || (desired == COMPLETE && (e.cacheRecords != map[] || e.allDepsCompleted))
      ensures if made || (executing && old(e.execReq) == null) then More(old(Out(e)), Out(e)) else SameRequestsOf(e)
      ensures executing ==> e.execReq != null || e.cacheRecords != map[] || e.allDepsCompleted
      ensures !executing ==> e.execReq == null
      ensures made ==> e.cacheMapReq != null && (!executing ==> Out(e) == old(Out(e)) + [e.cacheMapReq])
      ensures !made ==> e.cacheMapReq == old(e.cacheMapReq)
      ensures MapAsked(e)
      ensures desired == COMPLETE ==> Runs(e, e.keysDidChange)
      ensures !made && (!executing || old(e.execReq) != null) ==>
        Out(e) == old(Out(e)) && e.deps == old(e.deps) && e.mine == old(e.mine)
    {
      hide MapAsked, Calm, Unasked, Edge.Shape, Edge.Wired, Edge.Synced;
      OwnRequests(e);
      made := RequestCacheMap(e);
      OwnRequests(e);
      executing := e.execReq != null;
      if !executing && desired == COMPLETE {
        executing := ExecIfPossible(e);
      }
    }

    /** Every input has been asked for what is wanted from it, with force exactly if nothing else is waited for. */
    twostate predicate AskedInTurn(e: Edge, desired: EdgeStatus, made: bool)
      reads e`deps, e`hasActiveOutgoing
    {
      old(e.depsInit && e.FitsMap()) ==>
        var forced := old(e.AllWaiting(desired, false)) && !e.hasActiveOutgoing && !made;
        AskedTo(e.deps, old(e.deps), old(e.Wants(|e.deps|, desired, forced)), |e.deps|)
    }

    method AskInputs(e: Edge, desired: EdgeStatus, made: bool)
      requires Calm(e) == e.Shape() == e.Wired() == e.Synced() == true && !e.IsComplete() && e.FitsMap()
      requires !made ==> e.depsInit
      modifies `queue, `waitq, `incoming, `outgoing, `pipes, `asked, e`mine, e`deps, e`depsInit, e`depRequests,
               e.mine`canceled, e.mine`unseen
      ensures Calm(e) == e.Shape() == e.Wired() == e.Synced() == true && e.depsInit
      ensures Grown(e) == true
      ensures More(old(Out(e)), Out(e)) || Out(e) == old(Out(e))
      ensures !e.hasActiveOutgoing && !made ==>
        (Out(e) == old(Out(e)) <==>
          old(e.AllWaiting(desired, false)) && old(e.AllWaiting(desired, true)))
      ensures AskedInTurn(e, desired, made)
    {
      hide Calm, Unasked, Edge.Shape, Edge.Wired, Edge.Synced, Edge.AllWaiting, Edge.Wants, AskedTo;
      OwnRequests(e);
      var added := CreateInputRequests(e, desired, false);
      if !added && !e.hasActiveOutgoing && !made {
        OwnRequests(e);
        added := CreateInputRequests(e, desired, true);
      }
    }

    lemma InputsReady(e: Edge)
      requires e.Shape() == e.Wired() == e.Synced() == true
      requires e.execReq != null || e.cacheRecords != map[] || e.allDepsCompleted
      ensures e.depsInit
    {
    }

    // ---- dispatch ----

    /** What holds while the replies to e are being received. */
    ghost predicate Receiving(e: Edge)
      reads `outgoing, `moved, `pipes, `edges, `waitq, pipes, edges`mine, edges`done
    {
      && ListedOut(e, outgoing, edges, pipes) && Linked(e, edges, moved, pipes) && Execs(edges, pipes)
      && Awake(pipes, waitq + {e}, edges)
    }

    method ReceiveOne(e: Edge, p: Pipe) returns (changed: bool)
      requires Receiving(e) == true && p in pipes && p.from == e && !p.recv.completed
      modifies p`recv, p`unread
      ensures Receiving(e) == true && changed == old(p.unread) && !p.unread && p.recv == p.send
    {
      assert PipeOK(p, waitq + {e}, edges);
      changed := p.Receive();
    }

    /** Every reply that has arrived is copied; the pipes with a new reply are the updates. */
    method ReceiveLoop(e: Edge, out: seq<Pipe>) returns (updates: seq<Pipe>, active: bool)
      requires Receiving(e) == true && NoDup(out) && forall p | p in out ::
        p in pipes && p.from == e && !p.recv.completed
      modifies out`recv, out`unread
      ensures Receiving(e) == true
      ensures forall p | p in out :: !p.unread && p.recv == p.send
      ensures (forall p | p in out :: !old(p.unread)) ==> updates == []
      ensures NoDup(updates) && forall p :: p in updates <==> p in out && old(p.unread)
      ensures active <==> exists p | p in out :: !p.recv.completed
    {
      hide NoDup, Receiving;
      updates, active := [], false;
      assert NoDup(updates) by { NoDupNone(updates); }
      for n := 0 to |out|
        invariant Receiving(e) == true
        invariant forall i | 0 <= i < n :: !out[i].unread && out[i].recv == out[i].send
        invariant forall i | n <= i < |out| :: out[i].recv == old(out[i].recv) && out[i].unread == old(out[i].unread)
        invariant (forall i | 0 <= i < n :: !old(out[i].unread)) ==> updates == []
        invariant NoDup(updates) && forall p :: p in updates <==> p in out[..n] && old(p.unread)
        invariant active <==> exists i | 0 <= i < n :: !out[i].recv.completed
      {
        NextIsNew(out, n);
        var changed := ReceiveOne(e, out[n]);
        if changed {
          NoDupMore(updates, out[n]);
          updates := updates + [out[n]];
        }
        if !out[n].recv.completed { active := true; }
      }
      assert out[..|out|] == out;
    }

    method ReceiveAll(e: Edge) returns (updates: seq<Pipe>, active: bool)
      requires ListedOut(null, outgoing, edges, pipes) == Linked(null, edges, moved, pipes) == Execs(edges, pipes)
        == true
      requires Awake(pipes, waitq + {e}, edges) == true && e in edges
      modifies Out(e)`recv, Out(e)`unread
      ensures ListedOut(e, outgoing, edges, pipes) == Linked(e, edges, moved, pipes) == Execs(edges, pipes) == true
      ensures Awake(pipes, waitq + {e}, edges) == true && forall p | p in pipes && p.from == e :: !p.unread
      ensures Processed(e, updates)
      ensures active == AnyOpenOut(e)
      ensures NoDup(updates) && (old(AllRead(e)) ==> updates == [] && Stuck(e) == old(Stuck(e)))
      ensures old(Plain(e) && e.execReq == null && MapSent(e)) ==> e.TakesMap(updates)
    {
      hide Blocked, Edge.NothingToAsk, ListedOut, Linked, Execs, Awake;
      OpenOutgoing(e);
      updates, active := ReceiveLoop(e, Out(e));
    }

    /** What e has not processed of its own requests are the updates, and what is at another edge. */
    ghost predicate Processed(e: Edge, updates: seq<Pipe>)
      reads e`mine, e`done, e.mine`recv, e.mine`from
    {
      forall p | p in e.mine ::
        if p in updates then p !in e.done && p.from == e else p.recv.completed && p.from == e ==> p in e.done
    }

    lemma OpenOutgoing(e: Edge)
      requires ListedOut(null, outgoing, edges, pipes) == Linked(null, edges, moved, pipes) == true
      requires Awake(pipes, waitq + {e}, edges) == true && e in edges
      ensures NoDup(Out(e))
      ensures forall p | p in Out(e) ::
        p in pipes && p.from == e && !p.recv.completed && p !in e.done && (!p.unread ==> p.recv == p.send)
      ensures forall p | p in e.mine && p.from == e && p.recv.completed :: p in e.done
      ensures ListedOut(e, outgoing, edges, pipes) && Linked(e, edges, moved, pipes)
      ensures forall p | p in pipes && p.from == e && p !in Out(e) :: !p.unread
      ensures forall p | p in e.mine :: p in pipes && (e !in moved ==> p.from == e)
    {
    }

    /** From now on e has seen what was asked of it. */
    ghost method SeeRequests(e: Edge)
      requires Awake(pipes, waitq + {e}, edges) == true && forall p | p in pipes && p.from == e :: !p.unread
      requires forall p | p in pipes && p.target == e && !p.send.completed :: p in In(e)
      requires forall p | p in In(e) :: p in pipes
      modifies In(e)`unseen
      ensures Awake(pipes, waitq, edges) == true
    {
      forall p | p in In(e) { p.unseen := false; }
    }

    /** e has just been taken from the queue. */
    ghost predicate Popped(e: Edge)
      reads this, edges, pipes
    {
      && e in edges && waitq <= edges && Answers()
      && Queued(queue, waitq)
      && ListedIn(null, incoming, edges, pipes)
      && ListedOut(null, outgoing, edges, pipes)
      && Awake(pipes, waitq + {e}, edges)
      && Answered(pipes, edges)
      && Merged(incoming, moved, asked, edges)
      && LinksOK() && Needed(null, incoming, outgoing, asked) && Served(e, incoming, outgoing, waitq)
      && Sound(edges)
    }

    /** The replies to e have been received but not processed. */
    ghost predicate Collected(e: Edge, updates: seq<Pipe>)
      reads this, pipes, edges`result, edges`mine, edges`done, edges - {e}
    {
      && e in edges && NetOK(e) && BalanceOK(e) && Sound(edges - {e})
      && Linked(e, edges, moved, pipes) && Execs(edges, pipes) && Processed(e, updates)
    }

    /** What is open is needed, or just wakes e up. */
    ghost predicate Useful(e: Edge)
      reads `incoming, `outgoing, `asked
    {
      Out(e) != [] ==> In(e) != [] || (asked != {} && Postponed(Out(e)))
    }

    method Collect(e: Edge) returns (updates: seq<Pipe>)
      requires Popped(e) == true
      modifies e`hasActiveOutgoing, OutSet(e)`recv, OutSet(e)`unread, Near(e)`unseen
      ensures Collected(e, updates) == e.Shape() == e.Wired() == e.Synced() == true && e.Started()
      ensures e.hasActiveOutgoing == AnyOpenOut(e) && e.Failing()
      ensures NoDup(updates) && (old(AllRead(e)) ==> updates == [] && Stuck(e) == old(Stuck(e)))
      ensures old(Plain(e) && e.execReq == null && MapSent(e)) ==> e.TakesMap(updates)
    {
      hide NoDup, MapSent, Plain, Edge.TakesMap, Popped, NetOK, BalanceOK, Sound, Linked, Execs, Processed, Near, Stuck,
        AllRead, AnyOpenOut, Edge.Shape,
        Edge.Wired, Edge.Synced;
      SoundNow(e);
      var active: bool;
      updates, active := CollectReplies(e);
      e.hasActiveOutgoing := active;
    }

    lemma SoundNow(e: Edge)
      requires Popped(e)
      ensures e in edges && e.Shape() && e.Wired() && e.Synced() && e.Started() && e.Failing()
      ensures Plain(e) ==> e.execReq == null
      ensures BalanceOK(e) && Sound(edges - {e})
    {
    }

    method CollectReplies(e: Edge) returns (updates: seq<Pipe>, active: bool)
      requires Popped(e) == true
      modifies OutSet(e)`recv, OutSet(e)`unread, Near(e)`unseen
      ensures NetOK(e) == Linked(e, edges, moved, pipes) == Execs(edges, pipes) == Processed(e, updates) == true
      ensures active == AnyOpenOut(e)
      ensures NoDup(updates) && (old(AllRead(e)) ==> updates == [] && Stuck(e) == old(Stuck(e)))
      ensures old(Plain(e) && e.execReq == null && MapSent(e)) ==> e.TakesMap(updates)
    {
      hide Stuck, AllRead, MapSent, Plain, Edge.TakesMap, NoDup, Processed, AnyOpenOut, Needed, Served, ListedIn,
        ListedOut, Awake, Answered, Linked, Execs, Queued, Merged, Sound, Edge.Shape, Edge.Wired, Edge.Synced;
      OpenIncoming(e);
      updates, active := ReceiveAll(e);
      SeeRequests(e);
    }

    /** Requests that are listed once and not answered. */
    ghost predicate Open(inc: seq<Pipe>)
      reads `pipes, pipes`send
    {
      NoDup(inc) && forall p | p in inc :: p in pipes && p.work.Request? && !p.send.completed
    }

    /** e has read all replies. */
    ghost predicate AllRead(e: Edge)
      reads `outgoing, `pipes, pipes`unread
    {
      forall p | p in Out(e) && p in pipes :: !p.unread
    }

    /** e has a new cache map to read, which is not the last one. */
    ghost predicate MapSent(e: Edge)
      reads `outgoing, e`cacheMapReq, `pipes, pipes`unread, pipes`send
    {
      && e.cacheMapReq != null && e.cacheMapReq in Out(e) && e.cacheMapReq in pipes && e.cacheMapReq.unread
      && e.cacheMapReq.send.completed && e.cacheMapReq.send.err.None?
      && e.cacheMapReq.send.value.MapResp? && !e.cacheMapReq.send.value.complete
    }

    /** An edge without inputs that has no result and no complete cache map. */
    ghost predicate Plain(e: Edge)
      reads e`err, e`result, e`cacheMapDone
    {
      e.inputs == [] && e.ignoreCache && e.err.None? && e.result.None? && !e.cacheMapDone
    }

    /** The first half of a dispatch: replies are received and processed. Without new replies nothing changes. */
    method Digest(e: Edge)
      requires Popped(e) == true
      modifies e, OutSet(e)`recv, OutSet(e)`unread, Near(e)`unseen
      ensures Calm(e) == e.Shape() == e.Wired() == e.Synced() == true && e.Started() && e.Failing()
      ensures e.hasActiveOutgoing == AnyOpenOut(e)
      ensures Useful(e) && Open(In(e)) && e.mine == old(e.mine)
      ensures e.cacheMapReq == null || e.cacheMapReq == old(e.cacheMapReq)
      ensures Digested(e) && (old(AllRead(e)) ==> Stuck(e) == old(Stuck(e)))
      ensures old(Plain(e) && (AllRead(e) || MapSent(e))) ==> Plain(e)
      ensures old(Plain(e) && MapSent(e)) ==> e.keysDidChange && e.cacheMap.Some?
    {
      hide MapSent, Edge.TakesMap, Calm, Collected, Edge.Shape, Edge.Wired, Edge.Synced, Popped, Open, NoDup, Stuck,
        AnyOpenOut, Near, AllRead;
      ListsUseful(e);
      SoundNow(e);
      var updates := Collect(e);
      Apply(e, updates);
    }

    lemma ListsUseful(e: Edge)
      requires Popped(e) == true
      ensures Useful(e) && Open(In(e))
    {
    }

    method Apply(e: Edge, updates: seq<Pipe>)
      requires Collected(e, updates) == e.Shape() == e.Wired() == e.Synced() == true && e.Started() && e.Failing()
      requires NoDup(updates)
      modifies e`cacheMapReq, e`err, e`cacheMap, e`cacheMapDone, e`cacheMapIndex, e`cacheMapDigests, e`cacheRecords,
               e`keys, e`state, e`result, e`execReq, e`keysDidChange, e`deps, e`noCacheMatchPossible, e`done, e`keyMap,
               e`allDepsCompletedCacheFast, e`allDepsCompletedCacheSlow, e`allDepsStateCacheSlow, e`allDepsCompleted
      ensures Calm(e) == e.Shape() == e.Wired() == e.Synced() == true && e.Started() && e.Failing()
      ensures old(e.result).Some? ==> e.result == old(e.result)
      ensures old(e.TakesMap(updates)) ==> e.TookMap()
      ensures updates == [] ==> unchanged(e)
      ensures e.cacheMapReq == null || e.cacheMapReq == old(e.cacheMapReq)
    {
      hide ListedIn, ListedOut, Awake, Answered, Linked, Execs, Queued, Sound, Merged, Edge.Shape, Edge.Wired,
        Edge.Synced, Needed, Served, NoDup, Processed;
      DigestUpdates(e, updates);
    }

    /** What replies do to e: a result stays, and keys do not change without a new reply. */
    twostate predicate Digested(e: Edge)
      reads e`result, e`keysDidChange, e`failedOnce
    {
      && (old(e.result).Some? ==> e.result == old(e.result))
      && (old(AllRead(e)) ==> e.keysDidChange == old(e.keysDidChange))
      && e.failedOnce == old(e.failedOnce)
    }

    method DigestUpdates(e: Edge, updates: seq<Pipe>)
      requires e in edges && Linked(e, edges, moved, pipes) == Awake(pipes, waitq, edges) == true
      requires Answered(pipes, edges) == Execs(edges, pipes) == true
      requires e.Shape() == e.Wired() == e.Synced() == true && e.Started() && e.Failing() && NoDup(updates)
      requires Processed(e, updates)
      modifies e`cacheMapReq, e`err, e`cacheMap, e`cacheMapDone, e`cacheMapIndex, e`cacheMapDigests, e`cacheRecords,
               e`keys, e`state, e`result, e`execReq, e`keysDidChange, e`deps, e`noCacheMatchPossible, e`done, e`keyMap,
               e`allDepsCompletedCacheFast, e`allDepsCompletedCacheSlow, e`allDepsStateCacheSlow, e`allDepsCompleted
      ensures Linked(null, edges, moved, pipes) == Answered(pipes, edges) == Execs(edges, pipes) == true
      ensures e.Shape() == e.Wired() == e.Synced() == true && e.Started() && e.Failing()
      ensures old(e.result).Some? ==> e.result == old(e.result)
      ensures old(e.TakesMap(updates)) ==> e.TookMap()
      ensures updates == [] ==> unchanged(e)
      ensures e.cacheMapReq == null || e.cacheMapReq == old(e.cacheMapReq)
    {
      hide Edge.Shape, Edge.Wired, Edge.Synced;
      RepliesFit(e);
      e.ProcessUpdates(updates, edges);
    }

    lemma RepliesFit(e: Edge)
      requires e in edges && Linked(e, edges, moved, pipes) == Awake(pipes, waitq, edges) == true
      ensures forall p | p in e.mine :: p in pipes && p.creator == e && p.Fits(p.recv, edges)
    {
    }

    lemma OpenIncoming(e: Edge)
      requires ListedIn(null, incoming, edges, pipes) == true
      ensures ListedIn(e, incoming, edges, pipes) && NoDup(In(e)) && (e in incoming ==> In(e) != [])
      ensures forall p | p in In(e) :: p in pipes && p.target == e && !p.send.completed
      ensures forall p | p in pipes && p.target == e && !p.send.completed :: p in In(e)
      ensures Awake(pipes, waitq + {e}, edges) ==> Open(In(e))
    {
    }

    ghost predicate AnyOpenIn(e: Edge)
      reads `incoming, (set p | p in In(e))`send
    {
      exists p | p in In(e) :: !p.send.completed
    }

    ghost predicate AnyOpenOut(e: Edge)
      reads `outgoing, (set p | p in Out(e))`recv
    {
      exists p | p in Out(e) :: !p.recv.completed
    }

    /** Some request of e, which has not been canceled, cannot be answered yet. */
    ghost predicate Blocked(e: Edge, active: bool)
      reads `incoming, e`state, e`keys, e`err, e`result, (set p | p in In(e))`canceled
    {
      !e.IsComplete() && !NoneBlocks(e, active, In(e), CanceledOf(In(e)))
    }

    /** The highest state that a request of e wants. */
    ghost function WantedOf(e: Edge): EdgeStatus
      reads `incoming, e`state, (set p | p in In(e))`canceled
    {
      Wanted(e.state, In(e), CanceledOf(In(e)), |In(e)|)
    }

    /** e will leave a request open without waiting for anything. */
    ghost predicate Stuck(e: Edge)
      reads `incoming, `outgoing, e`state, e`err, e`result, e`cacheMap, e`deps, e`noCacheMatchPossible,
            e`allDepsCompletedCacheFast, e`allDepsCompletedCacheSlow, e`keys, e`cacheRecords, e`cacheMapReq, e`execReq,
            e`allDepsCompleted, (set p | p in In(e))`canceled, (set p | p in Out(e))`recv,
            e`mine, e.mine`recv
    {
      e.FitsMap() && !AnyOpenOut(e) && Blocked(e, false) && e.NothingToAsk(WantedOf(e))
    }

    /** RespondToIncoming for the requests listed under e. */
    method RespondListed(e: Edge) returns (desired: EdgeStatus, done: bool)
      requires Calm(e) == e.Shape() == true && Open(In(e))
      modifies `queue, `waitq, Near(e)`send, Near(e)`unread, Near(e)`canceled, Near(e)`unseen
      ensures Calm(e) == true && Longer()
      ensures done && !e.hasActiveOutgoing ==> forall p | p in In(e) :: p.send.completed
      ensures done && e.hasActiveOutgoing ==> In(e) == [] || exists i | 0 <= i < |In(e)| :: OpenExactlyAt(In(e), i)
      ensures !done ==>
                && !e.IsComplete() && (exists p | p in In(e) :: !p.send.completed)
                && (e.hasActiveOutgoing || e.state < desired) && desired == old(WantedOf(e))
      ensures done ==> e.IsComplete() || NoneBlocks(e, e.hasActiveOutgoing, In(e), old(CanceledOf(In(e))))
      ensures !done && !e.hasActiveOutgoing ==> !NoneBlocks(e, false, In(e), old(CanceledOf(In(e))))
    {
      hide ListedOut, Awake, Answered, Queued, Sound, Merged, Edge.Shape, OpenExactlyAt, NoneBlocks, Linked, Execs,
           Needed, Served, Open, Near;
      OutgoingKnown(e);
      NearLists(e);
      desired, done := RespondToIncoming(e, In(e), Out(e));
      ServedLonger(e, incoming, outgoing, old(waitq), waitq);
    }

    method Respond(e: Edge) returns (desired: EdgeStatus, done: bool)
      requires Calm(e) == e.Shape() == true && Open(In(e))
      modifies `queue, `waitq, Near(e)`send, Near(e)`unread, Near(e)`canceled, Near(e)`unseen
      ensures Calm(e) == true && Longer()
      ensures done ==> AnyOpenIn(e) == (e.hasActiveOutgoing && In(e) != [])
      ensures !done ==> AnyOpenIn(e) && !e.IsComplete() && (e.hasActiveOutgoing || e.state < desired)
      ensures !done ==> desired == old(WantedOf(e))
      ensures done ==> !old(Blocked(e, e.hasActiveOutgoing))
      ensures !done && !e.hasActiveOutgoing ==> old(Blocked(e, false))
    {
      hide Near, Calm, Unasked, Edge.Shape, OpenExactlyAt, NoneBlocks, Open;
      desired, done := RespondListed(e);
      if done && e.hasActiveOutgoing && In(e) != [] {
        ghost var i :| 0 <= i < |In(e)| && OpenExactlyAt(In(e), i);
        OneIsOpen(In(e), i);
      }
    }

    static lemma OneIsOpen(inc: seq<Pipe>, i: nat)
      requires i < |inc| && OpenExactlyAt(inc, i)
      ensures inc[i] in inc && !inc[i].send.completed
    {
    }

    lemma NearLists(e: Edge)
      ensures forall p | p in In(e) || p in Out(e) :: p in Near(e)
    {
    }

    lemma OutgoingKnown(e: Edge)
      requires Calm(e) == true
      ensures Near(e) <= pipes && forall p | p in Out(e) :: p in pipes && p.from == e
      ensures forall p | p in In(e) :: p in pipes && p.target == e
    {
    }

    /** The second half of a dispatch. A request stays open while e waits for nothing exactly if e is stuck, and the
        other way round exactly if e waits for something while it has no requests; otherwise requests stay open
        exactly if e waits for something. */
    method Answer(e: Edge)
      requires Calm(e) == e.Shape() == e.Wired() == e.Synced() == true && e.Started()
      requires Open(In(e)) && e.hasActiveOutgoing == AnyOpenOut(e)
      modifies `queue, `waitq, `incoming, `outgoing, `pipes, `asked, e`mine, e`deps, e`depsInit, e`depRequests,
               e`cacheMapReq, e`execReq, e`execCacheLoad, Near(e)`send, Near(e)`unread, Near(e)`canceled, Near(e)`unseen
      ensures Calm(e) == e.Shape() == e.Wired() == e.Synced() == true && e.Started()
      ensures Grown(e) == true
      ensures old(Blocked(e, e.hasActiveOutgoing)) ==> MapAsked(e)
      ensures old(Blocked(e, e.hasActiveOutgoing)) && old(WantedOf(e)) == COMPLETE ==> Runs(e, e.keysDidChange)
      ensures AnyOpenIn(e) && !AnyOpenOut(e) <==> old(Stuck(e))
      ensures !AnyOpenIn(e) && AnyOpenOut(e) <==> e.hasActiveOutgoing && old(In(e)) == []
      ensures old(In(e)) == [] ==> outgoing == old(outgoing) && incoming == old(incoming) && asked == old(asked)
    {
      hide Runs, Near, Calm, Unasked, Open, AnyOpenIn, AnyOpenOut, Edge.Shape, Edge.Wired, Edge.Synced, Blocked,
        Edge.NothingToAsk;
      OutgoingKnown(e);
      OwnRequests(e);
      if In(e) == [] { NoOneAsks(e); }
      var desired, done := Respond(e);
      if !done {
        OwnRequests(e);
        GoOnAnswering(e, desired);
      }
    }

    lemma NoOneAsks(e: Edge)
      requires In(e) == []
      ensures !Blocked(e, true) && !Blocked(e, false) && !AnyOpenIn(e)
    {
    }

    method GoOnAnswering(e: Edge, desired: EdgeStatus)
      requires Calm(e) == e.Shape() == e.Wired() == e.Synced() == true && e.Started() && !e.IsComplete() && AnyOpenIn(e)
      requires e.hasActiveOutgoing == AnyOpenOut(e) && e.FitsMap()
      modifies `queue, `waitq, `incoming, `outgoing, `pipes, `asked, e`mine, e`deps, e`depsInit, e`depRequests,
               e`cacheMapReq, e`execReq, e`execCacheLoad, Near(e)`canceled, Near(e)`unseen
      ensures Calm(e) == e.Shape() == e.Wired() == e.Synced() == true && e.Started()
      ensures Grown(e) == true
      ensures AnyOpenIn(e) && (e.hasActiveOutgoing ==> AnyOpenOut(e))
      ensures !e.hasActiveOutgoing ==> (AnyOpenOut(e) <==> !old(e.NothingToAsk(desired)))
      ensures MapAsked(e)
      ensures desired == COMPLETE ==> Runs(e, e.keysDidChange)
    {
      hide Runs, MapAsked, Calm, Unasked, Edge.Shape, Edge.Wired, Edge.Synced, Edge.NothingToAsk;
      ghost var p :| p in In(e) && !p.send.completed;
      OutgoingKnown(e);
      GoOn(e, desired);
      StillListed(e, p);
      if |Out(e)| > 0 { assert Out(e)[|Out(e)| - 1] in Out(e); }
    }

    lemma StillListed(e: Edge, p: Pipe)
      requires Calm(e) == true && p in pipes && p.target == e && !p.send.completed
      ensures p in In(e)
    {
    }

    /** The request is one whose answer e still waits for. */
    ghost predicate Awaits(e: Edge, p: Pipe)
      reads e, e.mine`from
    {
      p in e.mine && p !in e.done && e.Remembered(p)
    }

    /** An edge is stuck only if it waits for a request that has been moved to another edge, and it has been asked
        since. */
    lemma StuckIsMoved(e: Edge) returns (p: Pipe)
      requires Calm(e) == e.Shape() == e.Wired() == e.Synced() == true && e.Started()
      requires e.hasActiveOutgoing == AnyOpenOut(e) && Stuck(e)
      ensures e in moved && e in asked && Awaits(e, p) && p.from != e && !e.IsComplete()
    {
      var i :| 0 <= i < |In(e)| && Blocks(e, false, In(e), CanceledOf(In(e)), i);
      if forall p | Awaits(e, p) :: p.from == e {
        NothingAwaited(e);
        e.AlwaysAsks(WantedOf(e));
      }
      p :| Awaits(e, p) && p.from != e;
      StuckIsAsked(e, p);
    }

    lemma StuckIsAsked(e: Edge, p: Pipe)
      requires Calm(e) && p in e.mine && p.from != e && In(e) != []
      ensures e in moved && e in asked
    {
    }

    lemma NothingAwaited(e: Edge)
      requires Calm(e) == true && !AnyOpenOut(e) && forall p | Awaits(e, p) :: p.from == e
      ensures forall p | p in e.mine && e.Remembered(p) :: p in e.done
      ensures forall p | p in e.done :: p.recv.completed
    {
    }

    // ---- the end of a dispatch ----

    method OpenSenders(inc: seq<Pipe>) returns (open: seq<Pipe>)
      requires NoDup(inc)
      ensures NoDup(open) && forall p :: p in open <==> p in inc && !p.send.completed
      ensures open != [] <==> exists p | p in inc :: !p.send.completed
    {
      open := [];
      for n := 0 to |inc|
        invariant NoDup(open) && forall p :: p in open <==> p in inc[..n] && !p.send.completed
      {
        assert inc[n] !in inc[..n] && inc[..n + 1] == inc[..n] + [inc[n]];
        if !inc[n].send.completed { open := open + [inc[n]]; }
      }
      assert inc[..|inc|] == inc;
      assert open != [] ==> open[0] in open;
    }

    method OpenReceivers(out: seq<Pipe>) returns (open: seq<Pipe>)
      requires NoDup(out)
      ensures NoDup(open) && forall p :: p in open <==> p in out && !p.recv.completed
      ensures open != [] <==> exists p | p in out :: !p.recv.completed
    {
      open := [];
      for n := 0 to |out|
        invariant NoDup(open) && forall p :: p in open <==> p in out[..n] && !p.recv.completed
      {
        assert out[n] !in out[..n] && out[..n + 1] == out[..n] + [out[n]];
        if !out[n].recv.completed { open := open + [out[n]]; }
      }
      assert out[..|out|] == out;
      assert open != [] ==> open[0] in open;
    }

    /** Completed pipes leave the lists of e; a list that becomes empty is dropped. */
    method DropCompleted(e: Edge) returns (openIncoming: seq<Pipe>, openOutgoing: seq<Pipe>)
      requires Calm(e) == true
      requires AnyOpenOut(e) ==> AnyOpenIn(e) || (asked != {} && Postponed(Out(e)))
      modifies `incoming, `outgoing
      ensures NetOK(null) == LinksOK() == Sound(edges - {e}) == true
      ensures Needed(null, incoming, outgoing, asked) == Served(e, incoming, outgoing, waitq) == true
      ensures openIncoming == In(e) && openOutgoing == Out(e) && outgoing - {e} == old(outgoing) - {e}
      ensures (e in incoming <==> openIncoming != []) && (e in outgoing <==> openOutgoing != [])
      ensures (openIncoming != [] <==> old(AnyOpenIn(e))) && (openOutgoing != [] <==> old(AnyOpenOut(e)))
    {
      hide NetOK, LinksOK, Sound, Needed, Served, Postponed, NoDup;
      ListsOf(e);
      openIncoming := OpenSenders(In(e));
      openOutgoing := OpenReceivers(Out(e));
      BalanceKept(incoming, outgoing, waitq, asked, e, openIncoming, openOutgoing);
      SetLists(e, openIncoming, openOutgoing);
    }

    method SetLists(e: Edge, openIncoming: seq<Pipe>, openOutgoing: seq<Pipe>)
      requires NetOK(e) == true && NoDup(openIncoming) && NoDup(openOutgoing)
      requires forall p :: p in openIncoming <==> p in In(e) && !p.send.completed
      requires forall p :: p in openOutgoing <==> p in Out(e) && !p.recv.completed
      modifies `incoming, `outgoing
      ensures NetOK(null) == true
      ensures incoming == if openIncoming == [] then old(incoming) - {e} else old(incoming)[e := openIncoming]
      ensures outgoing == if openOutgoing == [] then old(outgoing) - {e} else old(outgoing)[e := openOutgoing]
    {
      hide ListedIn, ListedOut, Awake, Answered, Queued;
      KeptIn(e, incoming, edges, pipes, openIncoming);
      KeptOut(e, outgoing, edges, pipes, openOutgoing);
      if openIncoming != [] { assert openIncoming[0] in openIncoming; }
      incoming := if openIncoming == [] then incoming - {e} else incoming[e := openIncoming];
      outgoing := if openOutgoing == [] then outgoing - {e} else outgoing[e := openOutgoing];
    }

    static lemma BalanceKept(incoming: map<Edge, seq<Pipe>>, outgoing: map<Edge, seq<Pipe>>, waitq: set<Edge>,
                             asked: set<Edge>, e: Edge, ps: seq<Pipe>, qs: seq<Pipe>)
      requires Needed(e, incoming, outgoing, asked) == Served(e, incoming, outgoing, waitq) == true
      requires (forall q | q in qs :: q in PipesOf(outgoing, e))
      requires qs != [] ==> ps != [] || (asked != {} && Postponed(PipesOf(outgoing, e)))
      ensures Needed(null, if ps == [] then incoming - {e} else incoming[e := ps],
                     if qs == [] then outgoing - {e} else outgoing[e := qs], asked)
      ensures Served(e, if ps == [] then incoming - {e} else incoming[e := ps],
                     if qs == [] then outgoing - {e} else outgoing[e := qs], waitq)
    {
    }

    lemma ListsOf(e: Edge)
      requires Calm(e) == true
      ensures NoDup(In(e)) && NoDup(Out(e)) && (In(e) != [] && e in moved ==> e in asked)
    {
    }

    // ---- merging two edges ----

    /** The pipes of src are listed under target instead. */
    static ghost predicate Moved(now: map<Edge, seq<Pipe>>, before: map<Edge, seq<Pipe>>, target: Edge, src: Edge)
      requires src != target
    {
      && src !in now
      && PipesOf(now, target) == PipesOf(before, target) + PipesOf(before, src)
      && (target in now <==> target in before || src in before)
      && now - {target} == before - {target, src}
    }

    static lemma MovedList(now: map<Edge, seq<Pipe>>, before: map<Edge, seq<Pipe>>, target: Edge, src: Edge)
      requires src != target && (src in before ==> before[src] != [])
      requires now == if PipesOf(before, src) == [] then before
                      else before[target := PipesOf(before, target) + PipesOf(before, src)]
      ensures Moved(now - {src}, before, target, src)
    {
    }

    method Retarget(p: Pipe, target: Edge)
      requires Awake(pipes, waitq + {target}, edges) == true && p in pipes && p.target != null && target in edges
      modifies p`target
      ensures Awake(pipes, waitq + {target}, edges) == true && p.target == target
    {
      p.target := target;
    }

    method RetargetLoop(target: Edge, src: Edge)
      requires target != src && target in edges && (src in incoming ==> In(src) != [])
      requires forall p | p in In(src) :: p in pipes && p.target != null
      requires Awake(pipes, waitq + {target}, edges) == true
      modifies `incoming, pipes`target
      ensures Awake(pipes, waitq + {target}, edges) == true
      ensures Moved(incoming, old(incoming), target, src)
      ensures forall p | p in pipes :: p.target == if p in old(In(src)) then target else old(p.target)
    {
      hide Awake, Moved;
      var inc := In(src);
      for n := 0 to |inc|
        invariant incoming == if n == 0 then old(incoming) else old(incoming)[target := old(In(target)) + inc[..n]]
        invariant forall p | p in pipes :: p.target == if p in inc[..n] then target else old(p.target)
        invariant Awake(pipes, waitq + {target}, edges) == true
      {
        assert inc[..n + 1] == inc[..n] + [inc[n]];
        assert In(target) + [inc[n]] == old(In(target)) + inc[..n + 1];
        Retarget(inc[n], target);
        incoming := incoming[target := In(target) + [inc[n]]];
      }
      assert inc[..|inc|] == inc;
      MovedList(incoming, old(incoming), target, src);
      incoming := incoming - {src};
    }

    method MoveIncoming(target: Edge, src: Edge)
      requires target in edges && src in edges && target != src
      requires ListedIn(null, incoming, edges, pipes) == Awake(pipes, waitq + {target}, edges) == true
      modifies `incoming, pipes`target
      ensures ListedIn(null, incoming, edges, pipes) == Awake(pipes, waitq + {target}, edges) == true
      ensures Moved(incoming, old(incoming), target, src)
    {
      hide Awake, Moved, NoDup;
      ListedUnder(src);
      RetargetLoop(target, src);
      MovedApart(incoming, old(incoming), target, src);
      forall p | p in pipes && p.target != null && !p.send.completed ensures p in PipesOf(incoming, p.target) {
        assert old(p.target) != null && p in PipesOf(old(incoming), old(p.target));
      }
    }

    static lemma MovedApart(now: map<Edge, seq<Pipe>>, before: map<Edge, seq<Pipe>>, target: Edge, src: Edge)
      requires src != target && Moved(now, before, target, src)
      requires NoDup(PipesOf(before, target)) && NoDup(PipesOf(before, src))
      requires forall p | p in PipesOf(before, target) :: p !in PipesOf(before, src)
      ensures NoDup(PipesOf(now, target)) && src !in now && (target in now <==> target in before || src in before)
      ensures PipesOf(now, target) == PipesOf(before, target) + PipesOf(before, src)
      ensures forall p :: p in PipesOf(now, target) <==> p in PipesOf(before, target) || p in PipesOf(before, src)
      ensures forall e | e in now && e != target :: e != src && e in before && now[e] == before[e]
      ensures forall e | e in before && e != target && e != src :: e in now
    {
      NoDupConcat(PipesOf(before, target), PipesOf(before, src));
      forall e | e in now && e != target ensures e != src && e in before && now[e] == before[e] {
        assert e in now - {target};
      }
      forall e | e in before && e != target && e != src ensures e in now {
        assert e in before - {target, src};
      }
    }

    lemma ListedUnder(e: Edge)
      requires ListedIn(null, incoming, edges, pipes) == true
      ensures NoDup(In(e)) && (e in incoming ==> In(e) != [])
      ensures forall p :: p in In(e) <==> p in pipes && p.target == e && !p.send.completed
    {
    }

    method CancelMoved(p: Pipe, ghost target: Edge)
      requires QueueOK() == Awake(pipes, waitq + {target}, edges) == true && p in pipes
      modifies `queue, `waitq, p`canceled, p`unseen
      ensures QueueOK() == Awake(pipes, waitq + {target}, edges) == true && Longer()
      ensures p.canceled && p.unseen
    {
      p.canceled := true;
      p.unseen := true;
      if p.target != null { Signal(p.target); }
    }

    method MoveAndCancel(p: Pipe, target: Edge, ghost src: Edge)
      requires QueueOK() == Awake(pipes, waitq + {target}, edges) == Linked(null, edges, moved + {src}, pipes) == true
      requires p in pipes && p.from == src && target in edges && !p.recv.completed
      modifies `outgoing, `queue, `waitq, p`from, p`canceled, p`unseen
      ensures QueueOK() == Awake(pipes, waitq + {target}, edges) == Linked(null, edges, moved + {src}, pipes) == true
      ensures p.from == target && p.canceled && outgoing == old(outgoing)[target := old(Out(target)) + [p]] && Longer()
    {
      p.from := target;
      outgoing := outgoing[target := Out(target) + [p]];
      CancelMoved(p, target);
    }

    method RefromLoop(target: Edge, src: Edge)
      requires target != src && target in edges && (src in outgoing ==> Out(src) != [])
      requires NoDup(Out(src)) && forall p | p in Out(src) :: p in pipes && p.from == src && !p.recv.completed
      requires QueueOK() == Awake(pipes, waitq + {target}, edges) == Linked(null, edges, moved + {src}, pipes) == true
      modifies `outgoing, `queue, `waitq, pipes`from, pipes`canceled, pipes`unseen
      ensures QueueOK() == Awake(pipes, waitq + {target}, edges) == Linked(null, edges, moved + {src}, pipes) == true
      ensures Longer()
      ensures Moved(outgoing, old(outgoing), target, src)
      ensures forall p | p in pipes :: p.from == if p in old(Out(src)) then target else old(p.from)
      ensures forall p | p in old(Out(src)) :: p.canceled
    {
      hide Awake, Queued, Linked, Execs, NoDup, Moved;
      var out := Out(src);
      for n := 0 to |out|
        invariant outgoing == if n == 0 then old(outgoing) else old(outgoing)[target := old(Out(target)) + out[..n]]
        invariant forall p | p in pipes :: p.from == if p in out[..n] then target else old(p.from)
        invariant QueueOK() == Awake(pipes, waitq + {target}, edges) == Linked(null, edges, moved + {src}, pipes)
          == true
        invariant Longer() && forall p | p in out[..n] :: p.canceled
      {
        NextIsNew(out, n);
        assert Out(target) + [out[n]] == old(Out(target)) + out[..n + 1];
        MoveAndCancel(out[n], target, src);
      }
      assert out[..|out|] == out;
      MovedList(outgoing, old(outgoing), target, src);
      outgoing := outgoing - {src};
    }

    method MoveOutgoing(target: Edge, src: Edge)
      requires target in edges && src in edges && target != src
      requires QueueOK() == Awake(pipes, waitq + {target}, edges) == true
      requires ListedOut(null, outgoing, edges, pipes) == Linked(null, edges, moved, pipes) == true
      modifies `outgoing, `queue, `waitq, pipes`from, pipes`canceled, pipes`unseen
      ensures QueueOK() == Awake(pipes, waitq + {target}, edges) == true && Longer()
      ensures ListedOut(null, outgoing, edges, pipes) == Linked(null, edges, moved + {src}, pipes) == true
      ensures Moved(outgoing, old(outgoing), target, src)
    {
      hide Awake, Queued, Linked, Execs, Moved, NoDup;
      LinkMoved(edges, moved, pipes, src);
      WaitedUnder(src);
      RefromLoop(target, src);
      MovedApart(outgoing, old(outgoing), target, src);
      forall p | p in pipes && p.from != null && !p.recv.completed ensures p in PipesOf(outgoing, p.from) {
        assert old(p.from) != null && p in PipesOf(old(outgoing), old(p.from));
      }
    }

    lemma WaitedUnder(e: Edge)
      requires ListedOut(null, outgoing, edges, pipes) == true && e in edges
      ensures NoDup(Out(e)) && (e in outgoing ==> Out(e) != [])
      ensures forall p :: p in Out(e) <==> p in pipes && p.from == e && !p.recv.completed
    {
    }

    /** Merges src into target: the requests of src become requests of target. */
    method MergeTo(target: Edge, src: Edge, ghost x: Edge?) returns (merged: bool)
      requires NetOK(null) == LinksOK() == Needed(null, incoming, outgoing, asked) == true && (x == target || x == src)
      requires Served(x, incoming, outgoing, waitq) == true
      requires target in edges && src in edges && target != src
      modifies `incoming, `outgoing, `queue, `waitq, `moved, `asked, pipes`target, pipes`from, pipes`canceled,
        pipes`unseen
      ensures NetOK(null) == LinksOK() == Needed(null, incoming, outgoing, asked) == true && Longer()
      ensures merged <==> target.ignoreCache || !src.ignoreCache
      ensures if merged then Joined(target, src) && Served(null, incoming, outgoing, waitq)
              else unchanged(this) && unchanged(pipes`target, pipes`from, pipes`canceled, pipes`unseen)
    {
      hide NetOK, LinksOK, Needed, Served, Moved;
      if !target.ignoreCache && src.ignoreCache { return false; }
      MoveAll(target, src, x);
      merged := true;
    }

    /** All pipes of src are listed under target, which is woken up. */
    twostate predicate Joined(target: Edge, src: Edge)
      requires target != src
      reads `incoming, `outgoing, `moved, `asked, `waitq
    {
      && Moved(incoming, old(incoming), target, src) && Moved(outgoing, old(outgoing), target, src)
      && moved == old(moved) + {src} && asked == old(asked) + (if target in old(moved) then {target} else {})
      && target in waitq && src !in incoming && src !in outgoing
    }

    method MoveAll(target: Edge, src: Edge, ghost x: Edge?)
      requires NetOK(null) == LinksOK() == Needed(null, incoming, outgoing, asked) == true && (x == target || x == src)
      requires Served(x, incoming, outgoing, waitq) == true
      requires target in edges && src in edges && target != src
      modifies `incoming, `outgoing, `queue, `waitq, `moved, `asked, pipes`target, pipes`from, pipes`canceled,
        pipes`unseen
      ensures NetOK(null) == LinksOK() == Needed(null, incoming, outgoing, asked) == true && Longer()
      ensures Joined(target, src) && Served(null, incoming, outgoing, waitq)
    {
      hide ListedIn, ListedOut, Linked, Execs, Awake, Queued, Answered, Moved, Needed, Served, Merged;
      MoveLists(target, src);
      MovedGone(incoming, old(incoming), target, src);
      MovedGone(outgoing, old(outgoing), target, src);
      ServedAfterMove(incoming, outgoing, old(incoming), old(outgoing), old(waitq), waitq, target, src, x);
      NeededAfterMove(incoming, outgoing, old(incoming), old(outgoing), asked, target, src);
      Record(target, src, old(incoming));
    }

    static lemma MovedGone(now: map<Edge, seq<Pipe>>, before: map<Edge, seq<Pipe>>, target: Edge, src: Edge)
      requires target != src && Moved(now, before, target, src)
      ensures src !in now
    {
    }

    method MoveLists(target: Edge, src: Edge)
      requires NetOK(null) == LinksOK() == true && target in edges && src in edges && target != src
      modifies `incoming, `outgoing, `queue, `waitq, pipes`target, pipes`from, pipes`canceled, pipes`unseen
      ensures QueueOK() == PipesOK() == AnswersOK() == true && Answers() && Longer() && target in waitq
      ensures ListedIn(null, incoming, edges, pipes) == ListedOut(null, outgoing, edges, pipes) == true
      ensures Linked(null, edges, moved + {src}, pipes) == Execs(edges, pipes) == true
      ensures Moved(incoming, old(incoming), target, src) && Moved(outgoing, old(outgoing), target, src)
      ensures Merged(old(incoming), moved, asked, edges)
    {
      hide ListedIn, ListedOut, Linked, Execs, Awake, Queued, Answered, Moved, Merged;
      AwakeMore(pipes, waitq, edges, target);
      MoveIncoming(target, src);
      MoveOutgoing(target, src);
      Signal(target);
    }

    /** src is listed nowhere any more. */
    method Record(target: Edge, src: Edge, ghost before: map<Edge, seq<Pipe>>)
      requires target != src && target in edges && src in edges && Moved(incoming, before, target, src)
      requires Merged(before, moved, asked, edges) && Needed(null, incoming, outgoing, asked)
      modifies `moved, `asked
      ensures moved == old(moved) + {src} && asked == old(asked) + (if target in old(moved) then {target} else {})
      ensures Merged(incoming, moved, asked, edges) && Needed(null, incoming, outgoing, asked)
    {
      forall e | e in incoming && e != target ensures e != src && e in before {
        assert e in incoming - {target};
      }
      asked := asked + if target in moved then {target} else {};
      moved := moved + {src};
    }

    static lemma ServedAfterMove(incoming: map<Edge, seq<Pipe>>, outgoing: map<Edge, seq<Pipe>>,
                                 incoming0: map<Edge, seq<Pipe>>, outgoing0: map<Edge, seq<Pipe>>,
                                 waitq0: set<Edge>, waitq: set<Edge>, target: Edge, src: Edge, x: Edge?)
      requires target != src && Served(x, incoming0, outgoing0, waitq0) == true && (x == target || x == src)
      requires Moved(incoming, incoming0, target, src) == Moved(outgoing, outgoing0, target, src) == true
      requires waitq0 <= waitq && target in waitq
      ensures Served(null, incoming, outgoing, waitq)
    {
      forall e | e in incoming ensures e in outgoing || e in waitq {
        if e != target {
          assert e in incoming - {target};
          if e in outgoing0 { assert e in outgoing0 - {target, src}; }
        }
      }
    }

    static lemma NeededAfterMove(incoming: map<Edge, seq<Pipe>>, outgoing: map<Edge, seq<Pipe>>,
                                 incoming0: map<Edge, seq<Pipe>>, outgoing0: map<Edge, seq<Pipe>>,
                                 asked: set<Edge>, target: Edge, src: Edge)
      requires target != src && Needed(null, incoming0, outgoing0, asked) == true
      requires Moved(incoming, incoming0, target, src) == Moved(outgoing, outgoing0, target, src) == true
      ensures Needed(null, incoming, outgoing, asked)
    {
      forall e | e in outgoing ensures e in incoming || (asked != {} && Postponed(outgoing[e])) {
        if e != target {
          assert e in outgoing - {target} && outgoing[e] == (outgoing - {target})[e];
          if e in incoming0 { assert e in incoming0 - {target, src}; }
        }
      }
    }

    /** e is merged with the edge that is found. */
    predicate Merges(e: Edge, look: Lookup)
      reads e, `edges
    {
      && e.keysDidChange && e.HasIndexKey() && look.orig != null && look.orig in edges && look.orig != e
        && !look.related
      && (look.Dest(e).ignoreCache || !look.Src(e).ignoreCache)
    }

    /** The edge factory answers differently from now on. */
    method Resolved(after: map<EdgeRef, Edge>)
      requires NetOK(null) == true
      modifies `slots
      ensures NetOK(null) == true && slots == map r | r in after && after[r] in edges :: after[r]
    {
      hide ListedIn, ListedOut, Awake, Queued, Answered, Merged;
      slots := map r | r in after && after[r] in edges :: after[r];
    }

    lemma NoneFound(e: Edge, look: Lookup)
      ensures look.orig == null ==> !Merges(e, look)
    {
    }

    twostate predicate SameEnds(ps: set<Pipe>)
      reads ps`target, ps`from, ps`canceled, ps`unseen
    {
      unchanged(ps`target, ps`from, ps`canceled, ps`unseen)
    }

    /** If the keys of e have changed it may turn out to be the same as another edge. */
    method TryMerge(e: Edge, look: Lookup)
      requires NetOK(null) == LinksOK() == Needed(null, incoming, outgoing, asked) == true && e in edges
      requires Served(e, incoming, outgoing, waitq) == true
      modifies `incoming, `outgoing, `queue, `waitq, `moved, `asked, `slots, pipes`target, pipes`from, pipes`canceled,
               pipes`unseen, e`keysDidChange
      ensures NetOK(null) == LinksOK() == Needed(null, incoming, outgoing, asked) == true && Longer()
        && !e.keysDidChange
      ensures if old(Merges(e, look))
              then && Joined(look.Dest(e), look.Src(e)) && Served(null, incoming, outgoing, waitq)
                   && slots == map r | r in look.after && look.after[r] in edges :: look.after[r]
              else unchanged(this) && SameEnds(pipes)
      ensures old(asked) <= asked
      ensures !old(e.keysDidChange) || (e !in old(moved) && (look.orig == null || look.orig !in old(moved))) ==>
        asked == old(asked)
      ensures old(Merges(e, look)) && !look.swap ==> Given(e, look)
      ensures Served(if old(Merges(e, look)) then null else e, incoming, outgoing, waitq) == true
    {
      hide NetOK, LinksOK, Moved, Needed, Served;
      if e.keysDidChange {
        if e.HasIndexKey() && look.orig != null && look.orig in edges && look.orig != e && !look.related {
          var merged := MergeTo(look.Dest(e), look.Src(e), e);
          if merged { Resolved(look.after); }
        }
        e.keysDidChange := false;
      }
    }

    /** The edge gets an error, and is woken up if that happens for the first time. */
    method MarkFailed(e: Edge) returns (p: Pipe?)
      requires NetOK(null) == LinksOK() == true && e in edges && e.Wired() == true
      modifies `outgoing, `pipes, e`mine, e`err, e`failedOnce
      ensures NetOK(null) == LinksOK() == true && e.Wired() == true && e.err.Some? && e.failedOnce
      ensures p == null <==> old(e.failedOnce)
      ensures p == null ==> outgoing == old(outgoing) && pipes == old(pipes)
      ensures p != null ==> p.work == Postpone && pipes == old(pipes) + {p} && fresh(p)
      ensures p != null ==> outgoing == old(outgoing)[e := old(Out(e)) + [p]]
    {
      hide NetOK, LinksOK, Edge.Wired;
      e.err := Some(Failed("buildkit scheduler error"));
      if !e.failedOnce {
        e.failedOnce := true;
        p := NewFuncRequest(e, Postpone, null);
      } else {
        p := null;
      }
    }

    static lemma PostponeNeeded(incoming: map<Edge, seq<Pipe>>, outgoing: map<Edge, seq<Pipe>>, asked: set<Edge>,
                                e: Edge, p: Pipe)
      requires Needed(null, incoming, outgoing, asked) && p.work == Postpone && asked != {}
      ensures Needed(null, incoming, outgoing[e := PipesOf(outgoing, e) + [p]], asked)
    {
    }

    /** One dispatch. When it ends, e has open incoming requests exactly if it has open outgoing requests: it neither
        leaves a request behind nor works for nobody. Otherwise a merged edge has been asked again, and e is failed.
        */
    method Dispatch(e: Edge, look: Lookup)
      returns (openIncoming: seq<Pipe>, openOutgoing: seq<Pipe>, ghost changed: bool)
      requires Popped(e) == true
      modifies `queue, `waitq, `incoming, `outgoing, `pipes, `asked, `moved, `slots, e, pipes
      ensures Valid() == true && old(queue) <= queue && old(asked) <= asked
      ensures old(pipes) <= pipes && fresh(pipes - old(pipes))
      ensures (openIncoming == [] <==> openOutgoing == []) || asked != {}
      ensures openIncoming != [] && openOutgoing == [] ==> e in asked && e.failedOnce && e.err.Some?
      ensures old(AllRead(e)) ==> (openIncoming != [] && openOutgoing == [] <==> old(Stuck(e)))
      ensures old(Regular(look)) ==> asked == {}
      ensures old(e.result).Some? ==> e.result == old(e.result)
      ensures look.orig == null ==> Elsewhere(e)
      ensures old(Asked(e)) && !e.IsComplete() ==> MapAsked(e) && Runs(e, changed)
      ensures old(AllRead(e)) ==> !changed
      ensures (openIncoming == [] <==> openOutgoing == []) && old(Plain(e) && (AllRead(e) || MapSent(e))) ==> Plain(e)
      ensures (openIncoming == [] <==> openOutgoing == []) && old(Plain(e) && MapSent(e) && look.Joins(e, edges)) ==>
        Given(e, look)
    {
      hide Runs, Given, Plain, MapAsked, Asked, MapSent, Edge.HasIndexKey, Popped, Unasked, Calm, NetOK, LinksOK,
        Needed, Served, Sound, Edge.Shape, Edge.Wired, Edge.Synced, AllRead, Stuck, AnyOpenIn, AnyOpenOut, Near;
      Known(e);
      openIncoming, openOutgoing := Serve(e);
      NoInputKeys(e);
      changed := e.keysDidChange;
      Conclude(e, look, openIncoming, openOutgoing);
    }

    /** A dispatch up to the point where it looks for other edges with the same keys. */
    method Serve(e: Edge) returns (openIncoming: seq<Pipe>, openOutgoing: seq<Pipe>)
      requires Popped(e) == true
      modifies `queue, `waitq, `incoming, `outgoing, `pipes, `asked, e, Near(e)`send, OutSet(e)`recv, Near(e)`unread,
               Near(e)`canceled, Near(e)`unseen
      ensures NetOK(null) == LinksOK() == Sound(edges - {e}) == true
      ensures Needed(null, incoming, outgoing, asked) == Served(e, incoming, outgoing, waitq) == true
      ensures e.Shape() == e.Wired() == e.Synced() == true && e.Started() && e.Failing()
      ensures (e in incoming <==> openIncoming != []) && (e in outgoing <==> openOutgoing != [])
      ensures Longer() && old(pipes) <= pipes && fresh(pipes - old(pipes)) && outgoing - {e} == old(outgoing) - {e}
      ensures old(asked) <= asked && (Unasked(slots, moved) ==> asked == old(asked))
      ensures openIncoming != [] && openOutgoing == [] ==> e in asked && !e.failedOnce
      ensures openIncoming == [] && openOutgoing != [] ==> asked != {}
      ensures old(AllRead(e)) ==> (openIncoming != [] && openOutgoing == [] <==> old(Stuck(e)))
      ensures old(Asked(e)) && !e.IsComplete() ==> MapAsked(e) && Runs(e, e.keysDidChange)
      ensures Digested(e)
      ensures old(Plain(e) && (AllRead(e) || MapSent(e))) ==> Plain(e)
      ensures old(Plain(e) && MapSent(e)) ==> e.keysDidChange && e.cacheMap.Some?
    {
      hide Runs, Digested, Plain, Popped, Unasked, Calm, NetOK, LinksOK, Needed, Served, Sound, Edge.Shape, Edge.Wired,
        Edge.Synced, Stuck, AnyOpenIn, AnyOpenOut, AllRead, MapSent, Asked, MapAsked, Near, Postponed;
      Unpark(e);
      openIncoming, openOutgoing := DropCompleted(e);
    }

    /** Nobody else's requests are touched. */
    twostate predicate Elsewhere(e: Edge)
      reads `outgoing, `moved, `slots, `pipes, pipes
    {
      && outgoing - {e} == old(outgoing) - {e} && moved == old(moved) && slots == old(slots)
      && old(pipes) <= pipes && forall p | p in old(pipes) && p !in old(Near(e)) :: unchanged(p)
    }

    /** e has been merged and waits for nothing; the edge factory answers as it is said to. */
    ghost predicate Given(e: Edge, look: Lookup)
      reads `moved, `outgoing, `slots, `edges
    {
      e in moved && e !in outgoing && slots == map r | r in look.after && look.after[r] in edges :: look.after[r]
    }

    lemma Known(e: Edge)
      requires Popped(e) == true
      ensures e in edges && !e.keysDidChange && e.mine <= pipes
      ensures OutSet(e) <= Near(e) <= pipes
      ensures Plain(e) ==> e.inputs == []
      ensures asked == {} && e in moved ==> AllRead(e)
    {
    }

    /** The rest of a dispatch: e is merged if it is the same as another edge, and failed if it has been left with
        requests on one side only. */
    method Conclude(e: Edge, look: Lookup, openIncoming: seq<Pipe>, openOutgoing: seq<Pipe>)
      requires NetOK(null) == LinksOK() == Sound(edges - {e}) == true && e in edges
      requires Needed(null, incoming, outgoing, asked) == Served(e, incoming, outgoing, waitq) == true
      requires e.Shape() == e.Wired() == e.Synced() == true && e.Started() && e.Failing()
      requires (e in incoming <==> openIncoming != []) && (e in outgoing <==> openOutgoing != [])
      requires openIncoming != [] && openOutgoing == [] ==> e in asked && !e.failedOnce
      requires openIncoming == [] && openOutgoing != [] ==> asked != {}
      modifies `queue, `waitq, `incoming, `outgoing, `pipes, `asked, `moved, `slots, e`keysDidChange, e`mine, e`err,
               e`failedOnce, pipes`target, pipes`from, pipes`canceled, pipes`unseen
      ensures Valid() == true && Longer() && old(asked) <= asked
      ensures old(pipes) <= pipes && fresh(pipes - old(pipes))
      ensures openIncoming != [] && openOutgoing == [] ==> e.failedOnce && e.err.Some?
      ensures !old(e.keysDidChange) || (e !in old(moved) && (look.orig == null || look.orig !in old(moved))) ==>
        asked == old(asked)
      ensures (openIncoming == [] <==> openOutgoing == []) ==> e.err == old(e.err)
      ensures old(e.err).Some? ==> e.err.Some?
      ensures look.orig == null ==>
        && outgoing - {e} == old(outgoing) - {e} && moved == old(moved) && slots == old(slots)
        && SameEnds(old(pipes))
      ensures (openIncoming == [] <==> openOutgoing == []) && old(Merges(e, look)) && !look.swap ==> Given(e, look)
    {
      hide NetOK, LinksOK, Needed, Served, Sound, Edge.Shape, Edge.Wired, Edge.Synced, Moved, Joined, Given, Merges,
        SameEnds;
      ghost var merged := Merges(e, look);
      NoneFound(e, look);
      TryMerge(e, look);
      FailUnbalanced(e, openIncoming, openOutgoing, merged);
      SoundAgain(edges, e);
    }

    /** An edge that has been left with requests on one side only is failed. */
    method FailUnbalanced(e: Edge, openIncoming: seq<Pipe>, openOutgoing: seq<Pipe>, ghost merged: bool)
      requires NetOK(null) == LinksOK() == Needed(null, incoming, outgoing, asked) == true
      requires Served(if merged then null else e, incoming, outgoing, waitq) == e.Wired() == true && e in edges
        && e.Failing()
      requires !merged ==> (e in incoming <==> openIncoming != []) && (e in outgoing <==> openOutgoing != [])
      requires openIncoming != [] && openOutgoing == [] ==> asked != {} && !e.failedOnce
      requires openIncoming == [] && openOutgoing != [] ==> asked != {}
      modifies `outgoing, `pipes, e`mine, e`err, e`failedOnce
      ensures NetOK(null) == LinksOK() == BalanceOK(null) == e.Wired() == true && e.Failing()
      ensures old(pipes) <= pipes && fresh(pipes - old(pipes)) && outgoing - {e} == old(outgoing) - {e}
      ensures if (openIncoming == []) == (openOutgoing == []) then unchanged(this) && unchanged(e)
              else e.failedOnce && e.err.Some?
    {
      hide NetOK, LinksOK, Edge.Wired, Postponed;
      if (openIncoming == []) != (openOutgoing == []) {
        var p := MarkFailed(e);
        if p != null { PostponeNeeded(incoming, old(outgoing), asked, e, p); }
      }
    }

    /** No edge that has been merged is asked or found. */
    predicate Regular(look: Lookup)
      reads `slots, `moved, `asked
    {
      asked == {} && Unasked(slots, moved) && (look.orig != null ==> look.orig !in moved)
    }

    /** Some request of e, which has not been canceled, asks for the result. */
    ghost predicate Asked(e: Edge)
      reads `incoming, `pipes, pipes`canceled
    {
      exists p | p in In(e) && p in pipes :: !p.canceled && p.desired == COMPLETE
    }

    /** Replies are processed, requests are answered and new requests are made. */
    method Unpark(e: Edge)
      requires Popped(e) == true
      modifies `queue, `waitq, `incoming, `outgoing, `pipes, `asked, e, Near(e)`send, OutSet(e)`recv, Near(e)`unread,
               Near(e)`canceled, Near(e)`unseen
      ensures Calm(e) == e.Shape() == e.Wired() == e.Synced() == true && e.Started() && e.Failing()
      ensures Longer() && old(pipes) <= pipes && fresh(pipes - old(pipes)) && outgoing - {e} == old(outgoing) - {e}
      ensures old(asked) <= asked && (Unasked(slots, moved) ==> asked == old(asked))
      ensures AnyOpenOut(e) ==> AnyOpenIn(e) || (asked != {} && Postponed(Out(e)))
      ensures AnyOpenIn(e) && !AnyOpenOut(e) ==> e in asked && !e.failedOnce
      ensures old(AllRead(e)) ==> (AnyOpenIn(e) && !AnyOpenOut(e) <==> old(Stuck(e)))
      ensures old(Asked(e)) && !e.IsComplete() ==> MapAsked(e) && Runs(e, e.keysDidChange)
      ensures Digested(e)
      ensures old(Plain(e) && (AllRead(e) || MapSent(e))) ==> Plain(e)
      ensures old(Plain(e) && MapSent(e)) ==> e.keysDidChange && e.cacheMap.Some?
    {
      hide Runs, Digested, Plain, Popped, Unasked, Calm, Open, Edge.Shape, Edge.Wired, Edge.Synced, Stuck, AnyOpenIn,
        AnyOpenOut, AllRead, MapSent, Asked, Blocked, Near, Useful, Postponed;
      OutIsNear(e);
      Digest(e);
      AnswerAll(e);
    }

    /** The second half of a dispatch, for an edge that has read its replies. */
    method AnswerAll(e: Edge)
      requires Calm(e) == e.Shape() == e.Wired() == e.Synced() == true && e.Started() && e.Failing()
      requires Open(In(e)) && e.hasActiveOutgoing == AnyOpenOut(e) && Useful(e)
      modifies `queue, `waitq, `incoming, `outgoing, `pipes, `asked, e`mine, e`deps, e`depsInit, e`depRequests,
               e`cacheMapReq, e`execReq, e`execCacheLoad, Near(e)`send, Near(e)`unread, Near(e)`canceled, Near(e)`unseen
      ensures Calm(e) == e.Shape() == e.Wired() == e.Synced() == true && e.Started()
      ensures Longer() && old(pipes) <= pipes && fresh(pipes - old(pipes)) && outgoing - {e} == old(outgoing) - {e}
      ensures old(asked) <= asked && (Unasked(slots, moved) ==> asked == old(asked))
      ensures AnyOpenOut(e) ==> AnyOpenIn(e) || (asked != {} && Postponed(Out(e)))
      ensures AnyOpenIn(e) && !AnyOpenOut(e) ==> e in asked && !e.failedOnce
      ensures AnyOpenIn(e) && !AnyOpenOut(e) <==> old(Stuck(e))
      ensures old(Asked(e)) && !e.IsComplete() ==> MapAsked(e) && Runs(e, e.keysDidChange)
    {
      hide Runs, Unasked, Calm, Open, Edge.Shape, Edge.Wired, Edge.Synced, Stuck, AnyOpenIn, AnyOpenOut, Asked,
        Blocked, Near, MapAsked, Postponed;
      if Stuck(e) { var p := StuckIsMoved(e); }
      OpenIsListed(e);
      if Asked(e) && !e.IsComplete() { AskedBlocks(e, e.hasActiveOutgoing); }
      Answer(e);
    }

    lemma OutIsNear(e: Edge)
      ensures OutSet(e) <= Near(e)
    {
    }

    lemma OpenIsListed(e: Edge)
      ensures AnyOpenOut(e) ==> Out(e) != []
    {
    }

    lemma NoInputKeys(e: Edge)
      requires e.Shape() == true
      ensures e.inputs == [] && e.cacheMap.Some? ==> e.HasIndexKey()
    {
    }

    /** A request for the result cannot be answered before e is complete. */
    lemma AskedBlocks(e: Edge, active: bool)
      requires Asked(e) && !e.IsComplete() && e.Shape()
      ensures Blocked(e, active) && WantedOf(e) == COMPLETE
    {
      var p :| p in In(e) && !p.canceled && p.desired == COMPLETE;
      var i :| 0 <= i < |In(e)| && In(e)[i] == p;
      if NoneBlocks(e, active, In(e), CanceledOf(In(e))) {
        NoneBlocksNoneComplete(e, active, In(e), CanceledOf(In(e)), |In(e)|);
      }
    }

    // ---- what can happen to the scheduler ----

    /** One turn of the scheduler loop: the first waiting edge is dispatched. Meanwhile some builds are canceled. */
    method Step(look: Lookup, meanwhile: set<Pipe>) returns (e: Edge, openIncoming: seq<Pipe>, openOutgoing: seq<Pipe>)
      requires Valid() == true && queue != []
      modifies this, edges, pipes
      ensures Valid() == true && e == old(queue)[0] && e in edges
      ensures (openIncoming == [] <==> openOutgoing == []) || asked != {}
      ensures openIncoming != [] && openOutgoing == [] ==> e in asked && e.failedOnce && e.err.Some?
      ensures old(asked) <= asked && (old(Regular(look)) ==> asked == {})
      ensures edges == old(edges) && old(pipes) <= pipes && fresh(pipes - old(pipes))
      ensures forall f | f in old(edges) && old(f.result).Some? :: f.result == old(f.result)
    {
      hide Valid, Popped;
      e := PopFirst(meanwhile);
      ghost var changed;
      openIncoming, openOutgoing, changed := Dispatch(e, look);
    }

    method PopFirst(meanwhile: set<Pipe>) returns (e: Edge)
      requires Valid() == true && queue != []
      modifies `queue, `waitq, `canceling
      ensures Popped(e) == true && e in edges && e == old(queue)[0] && queue == old(queue)[1..]
        && canceling == meanwhile
    {
      hide ListedIn, ListedOut, Linked, Execs, Answered, Awake, Sound, Needed, Merged;
      canceling := meanwhile;
      e := queue[0];
      queue := queue[1..];
      waitq := waitq - {e};
      assert waitq + {e} == old(waitq);
    }

    /** A client asks for the result of an output of a vertex, unless the vertex is not active. */
    method Build(ref: EdgeRef) returns (p: Pipe?)
      requires Valid() == true
      modifies `queue, `waitq, `incoming, `pipes, `asked
      ensures Valid() == true && (p == null <==> ref !in slots)
      ensures p == null ==> unchanged(this)
      ensures p != null ==> Built(slots[ref], p)
    {
      hide Valid;
      var e := GetEdge(ref);
      if e == null { return null; }
      SlotIsEdge(ref);
      p := BuildEdge(e);
    }

    lemma SlotIsEdge(ref: EdgeRef)
      requires Valid() && ref in slots
      ensures slots[ref] in edges
    {
    }

    twostate predicate Built(e: Edge, new p: Pipe)
      reads this, p
    {
      && fresh(p) && pipes == old(pipes) + {p} && e in waitq && Longer()
      && p.from == p.creator == null && p.target == e && p.desired == COMPLETE && p.send == NO_REPLY && !p.canceled
      && incoming == old(incoming)[e := old(In(e)) + [p]]
      && asked == old(asked) + (if e in moved then {e} else {})
    }

    method BuildEdge(e: Edge) returns (p: Pipe)
      requires Valid() == true && e in edges
      modifies `queue, `waitq, `incoming, `pipes, `asked
      ensures Valid() == true && Built(e, p)
    {
      hide ListedIn, ListedOut, Linked, Execs, Answered, Awake, Sound, Queued, Needed, Merged;
      p := new Pipe(null, e, Request, COMPLETE, NO_STATE);
      Wake(e);
      AddBuild(e, p);
    }

    method AddBuild(e: Edge, p: Pipe)
      requires Valid() == true && e in edges && e in waitq && p !in pipes
      requires p.from == p.creator == null && p.target == e && p.work == Request && p.send == p.recv == NO_REPLY
        && !p.unread
      modifies `incoming, `pipes, `asked
      ensures Valid() == true && pipes == old(pipes) + {p} && incoming == old(incoming)[e := old(In(e)) + [p]]
      ensures asked == old(asked) + (if e in moved then {e} else {})
    {
      hide ListedIn, ListedOut, Linked, Execs, Answered, Awake, Sound, Queued, Needed, Served;
      ListIn(null, incoming, edges, pipes, e, p);
      ListOutNone(null, outgoing, edges, pipes, p);
      AddAwake(pipes, waitq, edges, p);
      AddAnswer(pipes, edges, p);
      LinkMore(null, edges, moved, pipes, p);
      ExecMore(edges, pipes, p);
      ServedMore(incoming, outgoing, waitq, e, In(e) + [p]);
      NeededMore(null, incoming, outgoing, asked, e, In(e) + [p], if e in moved then {e} else {});
      incoming := incoming[e := In(e) + [p]];
      pipes := pipes + {p};
      asked := asked + if e in moved then {e} else {};
    }

    /** A client gives up, or an edge withdraws a request. */
    method CancelRequest(p: Pipe)
      requires Valid() == true && p in pipes
      modifies `queue, `waitq, p`canceled, p`unseen
      ensures Valid() == true && p.canceled && (p.target != null ==> p.target in waitq)
    {
      hide ListedIn, ListedOut, Linked, Execs, Answered, Awake, Sound, Queued;
      Cancel(p);
    }

    /** The function of a request returns; the edge that waits for it is woken up. */
    method FunctionDone(p: Pipe, value: Value, err: Option<Error>)
      requires Valid() == true && p in pipes && !p.work.Request? && !p.send.completed
        && (p.work == ExecFn(true) ==> p.started)
      requires p.Fits(Reply(true, false, err, value), edges)
      modifies `queue, `waitq, p`send, p`unread
      ensures Valid() == true && p.send.completed && p.send.value == value && p.send.err == err && p.unread
      ensures p.from != null && waitq == old(waitq) + {p.from}
    {
      hide ListedIn, ListedOut, Linked, Execs, Sound, Queued, Awake, Answered;
      FunctionOwner(p);
      ReplyTo(p, value, err);
    }

    method ReplyTo(p: Pipe, value: Value, err: Option<Error>)
      requires QueueOK() == PipesOK() == AnswersOK() == ListedIn(null, incoming, edges, pipes) == true && p in pipes
      requires !p.work.Request? && !p.send.completed && p.target == null && p.from != null && p.from in edges
      requires p.Fits(Reply(true, false, err, value), edges)
      modifies `queue, `waitq, p`send, p`unread
      ensures QueueOK() == PipesOK() == AnswersOK() == ListedIn(null, incoming, edges, pipes) == true
      ensures p.send.completed && p.send.value == value && p.send.err == err && p.unread
        && waitq == old(waitq) + {p.from}
    {
      hide Queued, ListedIn, Answered, Awake;
      PutReply(p, value, err);
      Signal(p.from);
    }

    method PutReply(p: Pipe, value: Value, err: Option<Error>)
      requires Awake(pipes, waitq, edges) == AnswersOK() == ListedIn(null, incoming, edges, pipes) == true && p in pipes
      requires !p.work.Request? && !p.send.completed && p.target == null && p.from != null && p.from in edges
      requires p.Fits(Reply(true, false, err, value), edges)
      modifies p`send, p`unread
      ensures Awake(pipes, waitq + {p.from}, edges) == AnswersOK() == ListedIn(null, incoming, edges, pipes) == true
      ensures p.send.completed && p.send.value == value && p.send.err == err && p.unread
    {
      p.Finalize(value, err);
    }

    /** The function of a request to load chooses the cache record it loads. */
    method StartLoad(p: Pipe) returns (e: Edge, rec: RecordID)
      requires Valid() == true && p in pipes && p.work == ExecFn(true) && !p.send.completed && !p.started
      modifies p`started, edges`cacheRecordsLoaded
      ensures Valid() == true && p.started && e == p.creator && e in edges
      ensures rec in e.cacheRecords && !e.ignoreCache && e.cacheRecordsLoaded == old(e.cacheRecordsLoaded) + {rec}
      ensures e.inputs == [] || (e.cacheRecords[rec] in e.keyMap && forall i | 0 <= i < |e.deps| ::
        e.cacheRecords[rec] in e.deps[i].keyMap)
    {
      hide NetOK, LinksOK, BalanceOK, Sound;
      LoadIsCurrent(p);
      e := p.creator;
      rec := LoadRecord(e);
      SetStarted(p);
    }

    method SetStarted(p: Pipe)
      requires NetOK(null) == true && p in pipes
      modifies p`started
      ensures NetOK(null) == true && p.started
    {
      hide ListedIn, ListedOut, Answered, Queued;
      p.started := true;
    }

    method LoadRecord(e: Edge) returns (rec: RecordID)
      requires Sound(edges) == true && e in edges && e.execReq != null && e.execCacheLoad && e.result.None?
      modifies e`cacheRecordsLoaded
      ensures Sound(edges) == true
      ensures rec in e.cacheRecords && !e.ignoreCache && e.cacheRecordsLoaded == old(e.cacheRecordsLoaded) + {rec}
      ensures e.inputs == [] || (e.cacheRecords[rec] in e.keyMap && forall i | 0 <= i < |e.deps| ::
        e.cacheRecords[rec] in e.deps[i].keyMap)
    {
      SoundApart(edges, e);
      hide Sound, Edge.Shape, Edge.Wired, Edge.Synced;
      rec := e.LoadCache();
      SoundAgain(edges, e);
    }

    /** A request to load that is not answered is the current one of the edge that made it, which has records to load.
        */
    lemma LoadIsCurrent(p: Pipe)
      requires Valid() == true && p in pipes && p.work == ExecFn(true) && !p.send.completed
      ensures p.creator != null && p.creator in edges
      ensures var e := p.creator; e.execReq == p && e.execCacheLoad && e.result.None? && e.cacheRecords != map[]
    {
      assert PipeOK(p, waitq, edges);
      SoundApart(edges, p.creator);
    }

    lemma FunctionOwner(p: Pipe)
      requires Awake(pipes, waitq, edges) == true && p in pipes && !p.work.Request?
      ensures p.target == null && p.from != null && p.from in edges
    {
    }

    /** A vertex is loaded: the edge factory makes a new edge for one of its outputs. */
    method LoadEdge(ref: EdgeRef, inputs: seq<EdgeRef>, ignoreCache: bool) returns (e: Edge)
      requires Valid() == true
      modifies `edges, `slots
      ensures Valid() == true && edges == old(edges) + {e} && fresh(e) && slots == old(slots)[ref := e]
      ensures e.inputs == inputs && e.ignoreCache == ignoreCache && e !in moved && e !in outgoing
      ensures e.err.None? && e.result.None? && e.cacheMap.None? && e.cacheMapReq == null && !e.cacheMapDone
        && !e.depsInit
    {
      hide Valid, Edge.Shape, Edge.Wired, Edge.Synced;
      e := new Edge(inputs, ignoreCache);
      NotListed(e);
      AddEdge(ref, e);
    }

    method AddEdge(ref: EdgeRef, e: Edge)
      requires Valid() == true && e !in edges && e.Shape() == e.Wired() == e.Synced() == true
      requires e.mine == e.done == {} && !e.keysDidChange && e.Started() && e.Failing()
      modifies `edges, `slots
      ensures Valid() == true && edges == old(edges) + {e} && slots == old(slots)[ref := e]
    {
      hide ListedIn, ListedOut, Linked, Execs, Answered, Awake, Queued, Sound, Needed, Served, Merged, Edge.Shape,
        Edge.Wired, Edge.Synced;
      MoreEdges(edges, moved, pipes, e);
      MoreNet(incoming, outgoing, edges, pipes, waitq, e);
      MoreMerged(incoming, moved, asked, edges, e);
      edges := edges + {e};
      slots := slots[ref := e];
    }

    lemma NotListed(e: Edge)
      requires Valid() == true && e !in edges
      ensures e !in moved && e !in outgoing
    {
    }

    /** The edge factory answers differently: vertexes become active or inactive, edges change their owners. */
    method Resolve(after: map<EdgeRef, Edge>)
      requires Valid() == true
      modifies `slots
      ensures Valid() == true && slots == map r | r in after && after[r] in edges :: after[r]
    {
      hide NetOK, LinksOK, BalanceOK, Sound;
      Resolved(after);
    }

    // ---- a merged edge that is asked again ----

    /** The pipe has no other end than e. */
    ghost predicate Belongs(p: Pipe, e: Edge)
      reads `pipes, p`target, p`from
    {
      p in pipes && (p.target == null || p.target == e) && (p.from == null || p.from == e)
        && (p.creator == null || p.creator == e)
    }

    lemma NotNear(f: Edge, e: Edge, p: Pipe)
      requires Valid() == true && f in edges && f != e && Belongs(p, e)
      ensures p !in Near(f)
    {
    }

    /** The other edges have their turns until it is the turn of e. */
    method TurnOf(e: Edge, ghost ps: set<Pipe>)
      requires Valid() == true && e in waitq && forall p | p in ps :: Belongs(p, e)
      modifies this, edges, pipes
      ensures Valid() == true && queue != [] && queue[0] == e && edges == old(edges) && fresh(pipes - old(pipes))
      ensures unchanged(e) && unchanged(ps) && old(pipes) <= pipes
      ensures Out(e) == old(Out(e)) && (e in outgoing <==> e in old(outgoing))
      ensures moved == old(moved) && slots == old(slots) && (old(Regular(NO_MERGE)) ==> asked == {})
    {
      hide Valid;
      ghost var i := TurnAt(e);
      while queue[0] != e
        invariant Valid() == true && edges == old(edges) && old(pipes) <= pipes && fresh(pipes - old(pipes))
        invariant 0 <= i < |queue| && queue[i] == e
        invariant unchanged(e) && unchanged(ps) && Out(e) == old(Out(e)) && (e in outgoing <==> e in old(outgoing))
        invariant moved == old(moved) && slots == old(slots) && (old(Regular(NO_MERGE)) ==> asked == {})
        decreases i
      {
        OtherTurn(e, ps);
        i := i - 1;
      }
    }

    lemma TurnAt(e: Edge) returns (i: nat)
      requires Valid() && e in waitq
      ensures i < |queue| && queue[i] == e && e in edges
    {
      i :| 0 <= i < |queue| && queue[i] == e;
    }

    /** Another edge has its turn, which e and its pipes do not notice. */
    method OtherTurn(e: Edge, ghost ps: set<Pipe>)
      requires Valid() == true && queue != [] && queue[0] != e && forall p | p in ps :: Belongs(p, e)
      modifies this, edges - {e}, pipes
      ensures Valid() == true && edges == old(edges) && old(pipes) <= pipes && fresh(pipes - old(pipes))
      ensures old(queue)[1..] <= queue && unchanged(ps)
      ensures Out(e) == old(Out(e)) && (e in outgoing <==> e in old(outgoing))
      ensures moved == old(moved) && slots == old(slots) && (old(Regular(NO_MERGE)) ==> asked == {})
    {
      hide Valid, Popped, Near, Belongs;
      FirstIsEdge();
      forall p | p in ps ensures p !in Near(queue[0]) { NotNear(queue[0], e, p); }
      forall p | p in ps ensures p in pipes { Owned(p, e); }
      var f := PopFirst({});
      var openIncoming, openOutgoing, _ := Dispatch(f, NO_MERGE);
      SameOut(outgoing, old(outgoing), f, e);
    }

    lemma FirstIsEdge()
      requires Valid() && queue != []
      ensures queue[0] in edges
    {
    }

    lemma Owned(p: Pipe, e: Edge)
      requires Belongs(p, e)
      ensures p in pipes
    {
    }

    static lemma SameOut(a: map<Edge, seq<Pipe>>, b: map<Edge, seq<Pipe>>, f: Edge, e: Edge)
      requires a - {f} == b - {f} && e != f
      ensures PipesOf(a, e) == PipesOf(b, e) && (e in a <==> e in b)
    {
      assert e in a <==> e in a - {f};
      assert e in b <==> e in b - {f};
    }

    /** e, which waits for nothing that is listed under it, waits for a cache map, and it waits for the result or has
        nothing to ask of inputs. */
    ghost predicate WaitsElsewhere(e: Edge)
      reads this, e
    {
      && e in edges && e !in outgoing && !e.IsComplete() && e.cacheMapReq != null
      && (e.execReq != null || (e.deps == [] && !e.allDepsCompleted && e.cacheRecords == map[]))
    }

    /** A request for the result that is open and not canceled. */
    ghost predicate OpenBuild(e: Edge, p: Pipe)
      reads `pipes, p
    {
      && p in pipes && p.target == e && p.from == p.creator == null && p.desired == COMPLETE
      && !p.send.completed && !p.canceled
    }

    /** If such an edge is asked for its result, its dispatch ends with a request left open and nothing to wait for. */
    method AskAgain(ref: EdgeRef) returns (e: Edge, openIncoming: seq<Pipe>, openOutgoing: seq<Pipe>)
      requires Valid() == true && ref in slots && WaitsElsewhere(slots[ref])
      modifies this, edges, pipes
      ensures Valid() == true && e == old(slots[ref]) && openIncoming != [] && openOutgoing == []
      ensures e in moved && e in asked && e.err.Some?
    {
      hide Valid;
      var p := Build(ref);
      e := slots[ref];
      openIncoming, openOutgoing := StuckTurn(e, p);
    }

    method StuckTurn(e: Edge, p: Pipe) returns (openIncoming: seq<Pipe>, openOutgoing: seq<Pipe>)
      requires Valid() == true && e in waitq && WaitsElsewhere(e) && OpenBuild(e, p)
      modifies this, edges, pipes
      ensures Valid() == true && openIncoming != [] && openOutgoing == []
      ensures e in moved && e in asked && e.err.Some?
    {
      hide Valid, Popped, Stuck;
      TurnOf(e, {p});
      var f := PopFirst({});
      WillBeStuck(e, p);
      ghost var changed;
      openIncoming, openOutgoing, changed := Dispatch(e, NO_MERGE);
      AskedIsMoved(e);
    }

    lemma AskedIsMoved(e: Edge)
      requires Valid() && e in asked
      ensures e in moved
    {
    }

    lemma WillBeStuck(e: Edge, p: Pipe)
      requires Popped(e) == true && WaitsElsewhere(e) && OpenBuild(e, p)
      ensures AllRead(e) && Stuck(e)
    {
      SoundApart(edges, e);
      assert p in In(e);
      AskedBlocks(e, false);
    }

    lemma IsAsked(e: Edge, p: Pipe)
      requires Valid() == true && OpenBuild(e, p)
      ensures Asked(e) && (e !in outgoing ==> AllRead(e))
    {
      assert p in In(e);
    }

    /** The next turn of an edge without inputs that has nothing to read or a cache map that is not the last one. */
    method PlainTurn(e: Edge, p: Pipe, look: Lookup)
      requires Valid() == true && e in edges && e in waitq && Plain(e) && OpenBuild(e, p) && e !in moved
        && Regular(look)
      requires e !in outgoing || MapSent(e)
      modifies this, edges, pipes
      ensures Valid() == true && edges == old(edges) && old(pipes) <= pipes && fresh(pipes - old(pipes))
      ensures Plain(e) && MapAsked(e) && asked == {}
      ensures old(MapSent(e)) && look.Joins(e, edges) ==> Given(e, look)
      ensures look.orig == null ==> moved == old(moved) && slots == old(slots)
    {
      hide Valid, Popped, Near, Given, Belongs, Asked, AllRead;
      ghost var ps := PlainPipes(e, p);
      TurnOf(e, ps);
      IsAsked(e, p);
      var f := PopFirst({});
      PlainDispatch(e, look);
    }

    method PlainDispatch(e: Edge, look: Lookup)
      requires Popped(e) == true && Plain(e) && Asked(e) && (AllRead(e) || MapSent(e)) && Regular(look)
      modifies `queue, `waitq, `incoming, `outgoing, `pipes, `asked, `moved, `slots, e, pipes
      ensures Valid() == true && old(pipes) <= pipes && fresh(pipes - old(pipes))
      ensures Plain(e) && MapAsked(e) && asked == {}
      ensures old(MapSent(e)) && look.Joins(e, edges) ==> Given(e, look)
      ensures look.orig == null ==> moved == old(moved) && slots == old(slots)
    {
      hide Valid, Popped, Near, Given, Asked, AllRead, MapSent, MapAsked;
      var openIncoming, openOutgoing, _ := Dispatch(e, look);
    }

    lemma PlainPipes(e: Edge, p: Pipe) returns (ps: set<Pipe>)
      requires Valid() == true && OpenBuild(e, p) && e in edges && e !in moved && !e.cacheMapDone
      ensures ps == (if MapSent(e) then {p, e.cacheMapReq} else {p}) && forall q | q in ps :: Belongs(q, e)
    {
      hide Valid;
      ps := if MapSent(e) then {p, e.cacheMapReq} else {p};
      if MapSent(e) { MapPending(e); }
    }

    /** An edge without inputs, which no merged edge is in the way of. */
    ghost predicate Undisturbed(ref: EdgeRef, e: Edge)
      reads this, e
    {
      ref in slots && slots[ref] == e && e in edges && e !in moved && Plain(e) && Regular(NO_MERGE)
    }

    /** e is asked and asks for its cache map. */
    method AskForMap(ref: EdgeRef, e: Edge)
      requires Valid() == true && Undisturbed(ref, e) && e !in outgoing && e.cacheMapReq == null
      modifies this, edges, pipes
      ensures Valid() == true && edges == old(edges) && old(pipes) <= pipes && fresh(pipes - old(pipes))
      ensures Undisturbed(ref, e) && e.cacheMapReq != null && !e.cacheMapReq.send.completed && moved == old(moved)
    {
      hide Valid, Plain;
      var p := Build(ref);
      PlainTurn(e, p, NO_MERGE);
      NoRecords(e);
    }

    lemma NoRecords(e: Edge)
      requires Valid() == true && e in edges && Plain(e)
      ensures e.cacheRecords == map[] && e.deps == [] && !e.allDepsCompleted && !e.IsComplete()
    {
      SoundApart(edges, e);
    }

    /** e receives a cache map that is not the last one, asks for the next one, and turns out to be the same as t, into
        which it is merged; but the edge factory still answers with e. */
    method MergeWaiting(ref: EdgeRef, e: Edge, t: Edge)
      requires Valid() == true && Undisturbed(ref, e) && t in edges && t != e && t.ignoreCache && t !in moved
      requires e.cacheMapReq != null && !e.cacheMapReq.send.completed
      modifies this, edges, pipes
      ensures Valid() == true && edges == old(edges) && old(pipes) <= pipes && fresh(pipes - old(pipes))
      ensures ref in slots && slots[ref] == e && WaitsElsewhere(e)
    {
      hide Valid, Plain;
      SendMap(e);
      var p := Build(ref);
      var look := Lookup(t, false, false, map[ref := e]);
      PlainTurn(e, p, look);
      NoRecords(e);
    }

    method SendMap(e: Edge)
      requires Valid() == true && Plain(e) && e in edges && e !in moved && e.cacheMapReq != null
        && !e.cacheMapReq.send.completed
      modifies `queue, `waitq, pipes`send, pipes`unread
      ensures Valid() == true && MapSent(e) && e in waitq
    {
      hide Valid;
      MapPending(e);
      FunctionDone(e.cacheMapReq, MapResp(CacheMap("", []), false), None);
    }

    lemma MapPending(e: Edge)
      requires Valid() == true && e in edges && e !in moved && e.cacheMapReq != null && !e.cacheMapDone
      ensures e.cacheMapReq in Out(e) && e.cacheMapReq in pipes && e.cacheMapReq.work == CacheMapFn
      ensures e.cacheMapReq.from == e.cacheMapReq.creator == e && e.cacheMapReq.target == null
    {
      SoundApart(edges, e);
      assert PipeOK(e.cacheMapReq, waitq, edges);
    }

    /** The request to execute of an edge that has no result is open. */
    lemma ExecPending(e: Edge)
      requires Valid() == true && e in edges && e !in moved && e.execReq != null && e.result.None?
      ensures e.execReq in Out(e) && e.execReq in pipes && e.execReq.work == ExecFn(e.execCacheLoad)
      ensures !e.execReq.recv.completed && e.execReq.from == e.execReq.creator == e
    {
      SoundApart(edges, e);
      assert PipeOK(e.execReq, waitq, edges);
    }

    // ---- deadlock freedom ----

    /** The requests that are open between edges do not form a cycle. */
    ghost predicate Acyclic(rank: map<Edge, nat>)
      reads this, pipes
    {
      forall p | p in pipes && p.from != null && p.target != null && !p.send.completed ::
        p.from in rank && p.target in rank && rank[p.target] < rank[p.from]
    }

    /** No edge is queued and no function is running. */
    ghost predicate Quiet()
      reads this, pipes
    {
      queue == [] && forall p | p in pipes && !p.work.Request? :: p.send.completed
    }

    ghost predicate AllAnswered()
      reads `pipes, pipes`send
    {
      forall p | p in pipes && p.work.Request? :: p.send.completed
    }

    lemma NothingPending(e: Edge, rank: map<Edge, nat>)
      requires Valid() == Quiet() == Acyclic(rank) == true
      ensures e !in outgoing
      decreases if e in rank then rank[e] else 0
    {
      if e in outgoing {
        var p := outgoing[e][0];
        assert p in outgoing[e] && PipeOK(p, waitq, edges);
        assert !p.send.completed && p.target != null;
        assert p in In(p.target);
        NothingPending(p.target, rank);
      }
    }

    /** When the scheduler has nothing left to do and no function is running, every request, and
        so every build, has been answered: an open request always leads to running work. */
    lemma NoDeadlock(rank: map<Edge, nat>)
      requires Valid() == Quiet() == Acyclic(rank) == true
      ensures AllAnswered() && incoming == map[] && outgoing == map[]
    {
      forall e | e in incoming ensures false {
        NothingPending(e, rank);
      }
      forall e | e in outgoing ensures false {
        NothingPending(e, rank);
      }
      forall p | p in pipes && p.work.Request? ensures p.send.completed {
        assert PipeOK(p, waitq, edges);
      }
    }

    /** When the scheduler has nothing left to do, a request is left open exactly if open requests form a cycle. This
        does not depend on where merged edges have been asked again. */
    lemma StuckOnlyInCycle()
      requires Valid() == Quiet() == true
      ensures AllAnswered() <==> exists rank: map<Edge, nat> :: Acyclic(rank)
    {
      if AllAnswered() { assert Acyclic(map[]); }
      if rank: map<Edge, nat> :| Acyclic(rank) { NoDeadlock(rank); }
    }

    /** In every reachable state, of every edge: it has a result exactly if it is complete, it holds no cache records
        if it ignores the cache, its key map is the intersection of those of its inputs, and each of its cache
        records was found under a key that every input matched. */
    lemma EveryEdge(e: Edge, k: KeyID)
      requires Valid() == true && e in edges
      ensures e.result.Some? <==> e.state == COMPLETE
      ensures e.ignoreCache ==> e.cacheRecords == map[]
      ensures e.deps != [] ==> (k in e.keyMap <==> forall i | 0 <= i < |e.deps| :: k in e.deps[i].keyMap)
      ensures e.inputs != [] ==>
        forall r, i | r in e.cacheRecords && 0 <= i < |e.deps| :: e.cacheRecords[r] in e.deps[i].keyMap
    {
      SoundApart(edges, e);
      if e.deps != [] { e.KeyMapIsIntersection(k); }
      if e.inputs != [] {
        forall r | r in e.cacheRecords ensures MatchedByAll(e.deps, e.cacheRecords[r]) {}
      }
    }

    /** A build that is answered without an error gets a result. */
    lemma BuildGetsResult(p: Pipe)
      requires Valid() == true && p in pipes && p.from == null && p.desired == COMPLETE
      requires p.send.completed && p.send.err.None?
      ensures p.send.value.StateOf? && p.send.value.edge.result.Some? && p.send.value.edge.state == COMPLETE
    {
      assert PipeOK(p, waitq, edges);
      var e := p.send.value.edge;
      SoundApart(edges, e);
    }

    /** Anything that can happen. A dispatch is unbalanced only if a merged edge has been asked again, and that takes
        an edge factory or an index that still answers with a merged edge. */
    method Happen() returns (balanced: bool, regular: bool)
      requires Valid() == true
      modifies this, edges, pipes
      ensures Valid() == true && old(asked) <= asked
      ensures balanced || asked != {}
      ensures old(asked) == {} && regular ==> asked == {}
      ensures old(edges) <= edges && fresh(edges - old(edges)) && old(pipes) <= pipes && fresh(pipes - old(pipes))
      ensures forall e | e in old(edges) && old(e.result).Some? :: e.result == old(e.result)
    {
      hide Valid;
      balanced, regular := true, true;
      var kind: nat := *;
      var ref: EdgeRef, after: map<EdgeRef, Edge> := *, *;
      if kind == 0 {
        var inputs: seq<EdgeRef>, ignoreCache: bool := *, *;
        var _ := LoadEdge(ref, inputs, ignoreCache);
      } else if kind == 1 {
        regular := ref in slots ==> slots[ref] !in moved;
        var _ := Build(ref);
      } else if kind == 2 && pipes != {} {
        var p :| p in pipes;
        CancelRequest(p);
      } else if kind == 3 {
        FinishSomeFunction();
      } else if kind == 4 {
        StartSomeLoad();
      } else if kind == 5 {
        Resolve(after);
      } else if queue != [] {
        balanced, regular := SomeTurn();
      }
    }

    method SomeTurn() returns (balanced: bool, regular: bool)
      requires Valid() == true && queue != []
      modifies this, edges, pipes
      ensures Valid() == true && old(asked) <= asked
      ensures balanced || asked != {}
      ensures old(asked) == {} && regular ==> asked == {}
      ensures edges == old(edges) && old(pipes) <= pipes && fresh(pipes - old(pipes))
      ensures forall e | e in old(edges) && old(e.result).Some? :: e.result == old(e.result)
    {
      hide Valid;
      var orig: Edge?, related: bool, swap: bool, after: map<EdgeRef, Edge>, meanwhile: set<Pipe> := *, *, *, *, *;
      var look := Lookup(orig, related, swap, after);
      regular := Regular(look);
      var e, openIncoming, openOutgoing := Step(look, meanwhile);
      balanced := openIncoming == [] <==> openOutgoing == [];
    }

    method FinishSomeFunction()
      requires Valid() == true
      modifies `queue, `waitq, pipes`send, pipes`unread
      ensures Valid() == true
    {
      hide Valid;
      var running := set p | p in pipes && !p.work.Request? && !p.send.completed
        && (p.work == ExecFn(true) ==> p.started);
      var value: Value, err: Option<Error> := *, *;
      if running != {} {
        var p :| p in running;
        if p.Fits(Reply(true, false, err, value), edges) { FunctionDone(p, value, err); }
      }
    }

    method StartSomeLoad()
      requires Valid() == true
      modifies pipes`started, edges`cacheRecordsLoaded
      ensures Valid() == true
    {
      hide Valid;
      var waiting := set p | p in pipes && p.work == ExecFn(true) && !p.send.completed && !p.started;
      if waiting != {} {
        var p :| p in waiting;
        var e, rec := StartLoad(p);
      }
    }
  }

  /** While the request to an input that has no edge is open, asking for the input again reads a missing payload. */
  method MissingInputAskedTwice() returns (nilRead: bool)
    ensures nilRead
  {
    hide Scheduler.Valid;
    var s := new Scheduler();
    var e := s.LoadEdge(EdgeRef("a", 0), [EdgeRef("b", 0)], false);
    nilRead := s.AskTwice(e);
  }

  /** A run whose last dispatch leaves a request open while the edge waits for nothing: an edge is merged while its
      cache map is computed, and asked again. */
  method MergedThenAsked() returns (s: Scheduler, e: Edge, openIncoming: seq<Pipe>, openOutgoing: seq<Pipe>)
    ensures s.Valid() && openIncoming != [] && openOutgoing == [] && e in s.moved && e in s.asked
  {
    hide Scheduler.Valid;
    s := new Scheduler();
    var ref := EdgeRef("a", 0);
    e := s.LoadEdge(ref, [], true);
    var t := s.LoadEdge(EdgeRef("b", 0), [], true);
    s.AskForMap(ref, e);
    s.MergeWaiting(ref, e, t);
    e, openIncoming, openOutgoing := s.AskAgain(ref);
  }

  /** Every run: whatever clients, functions, the edge factory and the scheduler loop do in whatever order, the
      invariants hold, and no dispatch leaves incoming or outgoing requests behind on their own unless a merged edge
      has been asked again. In a run where the edge factory and the index never answer with a merged edge, none is. */
  method Run(steps: nat) returns (s: Scheduler, balanced: bool, regular: bool)
    ensures s.Valid() && (balanced || s.asked != {})
    ensures regular ==> balanced && s.asked == {}
  {
    hide Scheduler.Valid;
    s := new Scheduler();
    balanced, regular := true, true;
    for n := 0 to steps
      invariant s.Valid() == true && (balanced || s.asked != {}) && (regular ==> s.asked == {})
      invariant fresh(s) && fresh(s.edges) && fresh(s.pipes)
    {
      var ok, guarded := s.Happen();
      balanced, regular := balanced && ok, regular && guarded;
    }
  }
}
