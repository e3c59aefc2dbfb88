/** A scheduler run and the engine that executes its commands end in the same forest. */
module EngineRun {
  import opened Common
  import A = Arena
  import opened Commands
  import opened CommandStream
  import opened KvPool
  import opened KvStore
  import opened Engine
  import opened Scheduler
  import opened Runs
  import opened Policies
  import opened Accounts
  import opened Waiting
  import Lockstep

  lemma LiveChildrenAgree(a: A.Tree, b: A.Tree, x: nat)
    requires A.SameStructure(a, b) && x < |a.nodes|
    ensures LiveChildren(a, x) == LiveChildren(b, x)
  {
    assert A.SameShape(a.nodes[x], b.nodes[x]);
    forall c: nat
      ensures a.LiveAt(c) == b.LiveAt(c)
    {
      if c < |a.nodes| { assert A.SameShape(a.nodes[c], b.nodes[c]); }
    }
  }

  /** The engine sees structure only: a mirror of one tree mirrors every tree of the same structure. */
  lemma MirrorsStructure(a: A.Tree, b: A.Tree, m: map<nat, Branch>, next: nat,
                         active: set<nat>, finalized: set<nat>, parents: seq<Option<nat>>)
    requires A.SameStructure(a, b) && SameBranches(a, m, next) && Bookkept(a, active, finalized, parents)
    ensures SameBranches(b, m, next) && Bookkept(b, active, finalized, parents)
  {
    forall x: nat | x < |a.nodes|
      ensures LiveChildren(a, x) == LiveChildren(b, x) && A.SameShape(a.nodes[x], b.nodes[x])
    {
      LiveChildrenAgree(a, b, x);
    }
  }

  lemma LogReplays(c: Config, run: Run)
    requires RunInvariant(c, run)
    ensures Replay(A.FreshTree(run.s.tree.cap), run.Log()).Ok?
    ensures A.SameStructure(Replay(A.FreshTree(run.s.tree.cap), run.Log()).value, run.s.tree)
    ensures A.WellFormed(run.s.tree)
  {
  }

  // ---------------------------------------------------------------------------
  // The scheduler and the engine in turn
  // ---------------------------------------------------------------------------

  /** A call on the scheduler, or the engine carries out the next command it was handed; a Continue it may skip. */
  datatype Move = Call(op: Op) | CarryOut(taken: bool, token: Token)

  function CallsOf(moves: seq<Move>): seq<Op> {
    if moves == [] then []
    else CallsOf(moves[..|moves| - 1]) + if moves[|moves| - 1].Call? then [moves[|moves| - 1].op] else []
  }

  lemma {:induction false} ExecuteOneMore(c: Config, rollback: bool, r: Run, ops: seq<Op>, op: Op)
    requires A.WellFormed(r.s.tree) && ConfigOk(c) && Execute(c, rollback, r, ops).Ok?
    ensures A.WellFormed(Execute(c, rollback, r, ops).value.s.tree)
    ensures Execute(c, rollback, r, ops + [op]) == Step(c, rollback, Execute(c, rollback, r, ops).value, op)
    decreases |ops|
  {
    hide Step, A.WellFormed;
    if ops == [] {
      assert [op] == [op] + [];
    } else {
      StepWellFormed(c, rollback, r, ops[0]);
      assert (ops + [op])[0] == ops[0] && (ops + [op])[1..] == ops[1..] + [op];
      ExecuteOneMore(c, rollback, Step(c, rollback, r, ops[0]).value, ops[1..], op);
    }
  }

  /** What was handed out before stays what was handed out. */
  lemma StepKeepsPolled(c: Config, rollback: bool, r: Run, op: Op)
    requires A.WellFormed(r.s.tree) && ConfigOk(c) && Step(c, rollback, r, op).Ok?
    ensures r.polled <= Step(c, rollback, r, op).value.polled
    ensures RunInvariant(c, r) ==> Step(c, rollback, r, op).value.s.tree.cap == r.s.tree.cap
  {
    hide FeedEvent, Drain;
    if RunInvariant(c, r) { CapStays(c, rollback, r, op); }
  }

  lemma CapStays(c: Config, rollback: bool, r: Run, op: Op)
    requires RunInvariant(c, r) && ConfigOk(c) && Step(c, rollback, r, op).Ok?
    ensures Step(c, rollback, r, op).value.s.tree.cap == r.s.tree.cap
  {
    var root := A.FreshTree(r.s.tree.cap);
    hide FeedEvent, Drain, Lockstep.StepsTo;
    Lockstep.StepsToFacts(root, r.polled, r.s);
    match op {
      case PollCommands =>
      case DrainTree =>
        Lockstep.DrainInStep(root, r.polled, r.s);
        Lockstep.StepsToFacts(root, r.polled, Drain(r.s).value);
      case Feed(e, calls) =>
        if FeedEvent(c, r.s, e).Ok? {
          Lockstep.FeedEventInStep(root, r.polled, c, r.s, e);
          Lockstep.StepsToFacts(root, r.polled, FeedEvent(c, r.s, e).value);
        }
    }
  }

  /** The scheduler tree as of the commands carried out so far. */
  ghost predicate CarriedOut(root: A.Tree, commands: seq<Command>, t: A.Tree) {
    Replay(root, commands) == A.Ok(t)
  }

  /** The next command handed out can be carried out. */
  lemma NextIsDue(c: Config, run: Run, done: nat, t: A.Tree)
    requires RunInvariant(c, run) && done < |run.polled|
    requires CarriedOut(A.FreshTree(run.s.tree.cap), run.polled[..done], t)
    ensures Apply(t, run.polled[done]).Ok?
    ensures CarriedOut(A.FreshTree(run.s.tree.cap), run.polled[..done + 1], Apply(t, run.polled[done]).value)
  {
    hide A.WellFormed, Waits, Accounted, A.NoOrphans, Apply;
    var root, next := A.FreshTree(run.s.tree.cap), run.polled[done];
    assert run.polled[..done] + ([next] + (run.polled[done + 1..] + run.s.queue)) == run.Log();
    assert run.polled[..done + 1] == run.polled[..done] + [next];
    ReplayConcat(root, run.polled[..done], [next] + (run.polled[done + 1..] + run.s.queue));
    ReplayConcat(t, [next], run.polled[done + 1..] + run.s.queue);
    ReplayConcat(root, run.polled[..done], [next]);
    assert [next][1..] == [];
    if Apply(t, next).Ok? { assert Replay(t, [next]) == Replay(Apply(t, next).value, []); }
  }

  lemma {:induction false} PathsOneMore(m: Paths, next: nat, commands: seq<Command>, taken: seq<bool>, tokens: seq<Token>,
                                        c: Command, take: bool, token: Token, t: A.Tree, now: A.Tree)
    requires |commands| == |taken| == |tokens| && next == |t.nodes| && Replay(t, commands) == A.Ok(now)
    ensures ReplayPaths(m, next, commands + [c], taken + [take], tokens + [token])
         == ApplyPaths(ReplayPaths(m, next, commands, taken, tokens), |now.nodes|, c, take, token)
    decreases |commands|
  {
    hide ApplyPaths, Apply;
    if commands != [] {
      ApplyNext(t, commands[0]);
      assert (commands + [c])[1..] == commands[1..] + [c] && (taken + [take])[1..] == taken[1..] + [take];
      assert (tokens + [token])[1..] == tokens[1..] + [token];
      PathsOneMore(ApplyPaths(m, next, commands[0], taken[0], tokens[0]), NextAfter(next, commands[0]),
                   commands[1..], taken[1..], tokens[1..], c, take, token, Apply(t, commands[0]).value, now);
    } else {
      assert [c][1..] == [] && [take][1..] == [] && [token][1..] == [];
    }
  }

  /** How far a generation has come: the scheduler's run, and how much of what it handed out was carried out. */
  datatype Progress = Progress(run: Run, done: nat, taken: seq<bool>, tokens: seq<Token>)

  /** The engine mirrors the scheduler's tree as of the commands it has carried out, however far the scheduler is
      ahead. */
  ghost predicate Follows(engine: TreeKVEngine, c: Config, before: Paths, p: Progress)
    reads engine, engine.tree, engine.tree.pool, engine.tree.pool.cache
  {
    && RunInvariant(c, p.run)
    && p.done == |p.taken| == |p.tokens| && p.done <= |p.run.polled|
    && var root := A.FreshTree(p.run.s.tree.cap);
       var replayed := Replay(root, p.run.polled[..p.done]);
    && replayed.Ok?
    && engine.Mirrors(replayed.value)
    && engine.tree.Contents() == ReplayPaths(before, 1, p.run.polled[..p.done], p.taken, p.tokens)
  }

  /** A run of the scheduler during which the engine carries out what it is handed, one command at a time and in
      any interleaving with the scheduler's events, polls and drains, as the generation loop does. No command is
      ever refused, whatever the scheduler has done since it was handed out; only pages may run out. When
      everything is handed out and carried out the engine mirrors the scheduler's tree. */
  method FollowGeneration(engine: TreeKVEngine, c: Config, rollback: bool, start: Run, moves: seq<Move>)
    returns (r: Outcome, accepted: bool, p: Progress)
    requires RunInvariant(c, start) && ConfigOk(c) && start.polled == []
    requires engine.Mirrors(A.FreshTree(start.s.tree.cap))
    modifies engine, engine.tree, engine.tree.pool, engine.tree.pool.cache
    ensures Follows(engine, c, old(engine.tree.Contents()), p)
    ensures r != Done ==> r.CapacityExceeded?
    ensures r == Done && accepted ==>
              A.WellFormed(start.s.tree) && Execute(c, rollback, start, CallsOf(moves)) == A.Ok(p.run)
    ensures p.done == |p.run.polled| && p.run.s.queue == [] ==> engine.Mirrors(p.run.s.tree)
  {
    hide SameBranches, Bookkept, A.WellFormed, StoreInv, A.SameStructure, ReplayPaths, RunInvariant, Step, Execute, Follows, ConfigOk;
    r, accepted, p := Done, true, Progress(start, 0, [], []);
    ghost var before := engine.tree.Contents();
    NothingCarriedOut(engine, c, start);
    ExecuteNothing(c, rollback, start);
    assert moves[..0] == [];
    for i := 0 to |moves|
      invariant Follows(engine, c, before, p)
      invariant r == Done && accepted
      invariant A.WellFormed(start.s.tree) && Execute(c, rollback, start, CallsOf(moves[..i])) == A.Ok(p.run)
    {
      assert moves[..i + 1][..i] == moves[..i];
      FollowsRun(engine, c, before, p);
      match moves[i] {
        case Call(op) =>
          ExecuteOneMore(c, rollback, start, CallsOf(moves[..i]), op);
          assert CallsOf(moves[..i + 1]) == CallsOf(moves[..i]) + [op];
          var next := Step(c, rollback, p.run, op);
          if next.Err? {
            accepted := false;
            break;
          }
          FollowsFurther(engine, c, rollback, before, p, op);
          p := p.(run := next.value);
        case CarryOut(taken, token) =>
          assert CallsOf(moves[..i + 1]) == CallsOf(moves[..i]) + [] == CallsOf(moves[..i]);
          if p.done < |p.run.polled| {
            r, p := CarryOutNext(engine, c, before, p, taken, token);
            if r != Done { break; }
          }
      }
    }
    assert r == Done && accepted ==> moves[..|moves|] == moves;
    CaughtUp(engine, c, before, p);
  }

  lemma ExecuteNothing(c: Config, rollback: bool, r: Run)
    requires A.WellFormed(r.s.tree) && ConfigOk(c)
    ensures Execute(c, rollback, r, []) == A.Ok(r)
  {
  }

  lemma NothingCarriedOut(engine: TreeKVEngine, c: Config, start: Run)
    requires RunInvariant(c, start) && start.polled == [] && engine.Mirrors(A.FreshTree(start.s.tree.cap))
    ensures Follows(engine, c, engine.tree.Contents(), Progress(start, 0, [], [])) && A.WellFormed(start.s.tree)
  {
    hide SameBranches, Bookkept, StoreInv, A.SameStructure;
    assert start.polled[..0] == [];
  }

  lemma FollowsRun(engine: TreeKVEngine, c: Config, before: Paths, p: Progress)
    requires Follows(engine, c, before, p)
    ensures RunInvariant(c, p.run) && A.WellFormed(p.run.s.tree)
  {
  }

  lemma FollowsFurther(engine: TreeKVEngine, c: Config, rollback: bool, before: Paths, p: Progress, op: Op)
    requires Follows(engine, c, before, p) && A.WellFormed(p.run.s.tree) && ConfigOk(c) && Step(c, rollback, p.run, op).Ok?
    ensures Follows(engine, c, before, p.(run := Step(c, rollback, p.run, op).value))
  {
    hide RunInvariant, Step, ReplayPaths, engine.Mirrors, A.WellFormed;
    FollowsRun(engine, c, before, p);
    var next := Step(c, rollback, p.run, op).value;
    StepKeepsInvariant(c, rollback, p.run, op);
    StepKeepsPolled(c, rollback, p.run, op);
    assert next.polled[..p.done] == p.run.polled[..p.done];
  }

  method CarryOutNext(engine: TreeKVEngine, ghost c: Config, ghost before: Paths, p: Progress, taken: bool, token: Token)
    returns (r: Outcome, q: Progress)
    requires Follows(engine, c, before, p) && p.done < |p.run.polled|
    modifies engine, engine.tree, engine.tree.pool, engine.tree.pool.cache
    ensures Follows(engine, c, before, q) && q.run == p.run
    ensures r == Done ==> q.done == p.done + 1
    ensures r != Done ==> r.CapacityExceeded? && q == p
  {
    hide SameBranches, Bookkept, A.WellFormed, StoreInv, A.SameStructure, ReplayPaths, RunInvariant, Apply, ApplyPaths;
    var command := p.run.polled[p.done];
    ghost var root := A.FreshTree(p.run.s.tree.cap);
    ghost var now := Replay(root, p.run.polled[..p.done]).value;
    NextIsDue(c, p.run, p.done, now);
    PathsOneMore(before, 1, p.run.polled[..p.done], p.taken, p.tokens, command, taken, token, root, now);
    assert p.run.polled[..p.done + 1] == p.run.polled[..p.done] + [command];
    r := engine.Execute(command, taken, token, now);
    q := if r == Done then Progress(p.run, p.done + 1, p.taken + [taken], p.tokens + [token]) else p;
  }

  /** With everything handed out and carried out the engine mirrors the scheduler's own tree. */
  lemma CaughtUp(engine: TreeKVEngine, c: Config, before: Paths, p: Progress)
    requires Follows(engine, c, before, p)
    ensures p.done == |p.run.polled| && p.run.s.queue == [] ==> engine.Mirrors(p.run.s.tree)
  {
    hide SameBranches, Bookkept, StoreInv, A.SameStructure, ReplayPaths;
    if p.done == |p.run.polled| && p.run.s.queue == [] {
      assert p.run.polled[..p.done] == p.run.Log();
      LogReplays(c, p.run);
      MirrorsStructure(Replay(A.FreshTree(p.run.s.tree.cap), p.run.Log()).value, p.run.s.tree, engine.tree.branches,
                       engine.tree.nextBranchId, engine.active, engine.finalized, engine.parents);
    }
  }
}
