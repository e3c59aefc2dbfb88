/** Replaying a command stream on an arena: the consumer's side of the protocol. */
module CommandStream {
  import opened Arena
  import opened Commands

  /** One command as a consumer executes it; a Continue only asks that its branch can decode. */
  function Apply(t: Tree, c: Command): Result<Tree> {
    match c
    case ForkAt(b, width) => Fork(t, b, width)
    case KillBranch(b, _) => Kill(t, b)
    case FinalizeBranch(b) => Finalize(t, b)
    case Continue(b) =>
      if !t.Has(b) then Err(UnknownBranch(b))
      else if t.nodes[b].state != Active then Err(BranchNotActive(b))
      else Ok(t)
  }

  function Replay(t: Tree, commands: seq<Command>): Result<Tree>
    decreases |commands|
  {
    if commands == [] then Ok(t)
    else
      var next :- Apply(t, commands[0]);
      Replay(next, commands[1..])
  }

  /** Replaying the commands on `a` succeeds and rebuilds the structure of `b`. */
  predicate Replays(a: Tree, commands: seq<Command>, b: Tree) {
    && Replay(a, commands).Ok?
    && SameStructure(Replay(a, commands).value, b)
    && a.cap == b.cap
  }

  ghost predicate WellTargeted(t: Tree, c: Command) {
    match c
    case ForkAt(b, _) => t.ActiveAt(b)
    case Continue(b) => t.ActiveAt(b)
    case FinalizeBranch(b) => t.ActiveAt(b) && t.nodes[b].children == []
    case KillBranch(b, _) => t.LiveAt(b) && t.AllChildrenTerminal(b)
  }

  lemma SameStructureIsEquivalence(a: Tree, b: Tree, c: Tree)
    ensures SameStructure(a, a)
    ensures SameStructure(a, b) ==> SameStructure(b, a)
    ensures SameStructure(a, b) && SameStructure(b, c) ==> SameStructure(a, c)
  {
  }

  lemma ApplyKeepsCap(t: Tree, c: Command)
    requires Apply(t, c).Ok?
    ensures Apply(t, c).value.cap == t.cap
    ensures |Apply(t, c).value.nodes| >= |t.nodes|
  {
  }

  lemma {:induction false} ReplayKeepsCap(t: Tree, commands: seq<Command>)
    requires Replay(t, commands).Ok?
    ensures Replay(t, commands).value.cap == t.cap
    ensures |Replay(t, commands).value.nodes| >= |t.nodes|
    decreases |commands|
  {
    if commands != [] {
      ApplyKeepsCap(t, commands[0]);
      ReplayKeepsCap(Apply(t, commands[0]).value, commands[1..]);
    }
  }

  lemma ApplyKeepsWellFormed(t: Tree, c: Command)
    requires WellFormed(t) && Apply(t, c).Ok?
    ensures WellFormed(Apply(t, c).value)
    ensures WellTargeted(t, c)
  {
    match c {
      case ForkAt(b, width) => ForkKeepsWellFormed(t, b, width);
      case KillBranch(b, _) => KillKeepsWellFormed(t, b); KillableChildren(t, b);
      case FinalizeBranch(b) => FinalizeKeepsWellFormed(t, b);
      case Continue(b) =>
    }
  }

  lemma KillableChildren(t: Tree, b: nat)
    requires WellFormed(t) && b < |t.nodes| && !t.AnyChildLive(b)
    ensures t.AllChildrenTerminal(b)
  {
    assert NodeOk(t, b);
  }

  lemma {:induction false} ReplayKeepsWellFormed(t: Tree, commands: seq<Command>)
    requires WellFormed(t) && Replay(t, commands).Ok?
    ensures WellFormed(Replay(t, commands).value)
    decreases |commands|
  {
    if commands != [] {
      ApplyKeepsWellFormed(t, commands[0]);
      ReplayKeepsWellFormed(Apply(t, commands[0]).value, commands[1..]);
    }
  }

  /** A consumer that only sees the structure takes the same step. */
  lemma ApplyRespectsStructure(a: Tree, b: Tree, c: Command)
    requires SameStructure(a, b) && a.cap == b.cap
    ensures Apply(a, c).Ok? == Apply(b, c).Ok?
    ensures Apply(a, c).Ok? ==> SameStructure(Apply(a, c).value, Apply(b, c).value)
  {
    if c.branch < |a.nodes| {
      assert SameShape(a.nodes[c.branch], b.nodes[c.branch]);
      assert a.AnyChildLive(c.branch) <==> b.AnyChildLive(c.branch) by {
        forall d: nat
          ensures a.LiveAt(d) == b.LiveAt(d)
        {
        }
      }
      if c.ForkAt? && Apply(a, c).Ok? {
        forall i | |a.nodes| <= i < |a.nodes| + c.width
          ensures SameShape(Apply(a, c).value.nodes[i], Apply(b, c).value.nodes[i])
        {
          assert Apply(a, c).value.nodes[i] == ChildOf(a.nodes[c.branch], i);
          assert Apply(b, c).value.nodes[i] == ChildOf(b.nodes[c.branch], i);
        }
      }
    }
  }

  lemma {:induction false} ReplayRespectsStructure(a: Tree, b: Tree, commands: seq<Command>)
    requires SameStructure(a, b) && a.cap == b.cap
    ensures Replay(a, commands).Ok? == Replay(b, commands).Ok?
    ensures Replay(a, commands).Ok? ==> SameStructure(Replay(a, commands).value, Replay(b, commands).value)
    decreases |commands|
  {
    if commands != [] {
      ApplyRespectsStructure(a, b, commands[0]);
      if Apply(a, commands[0]).Ok? {
        ApplyKeepsCap(a, commands[0]);
        ApplyKeepsCap(b, commands[0]);
        ReplayRespectsStructure(Apply(a, commands[0]).value, Apply(b, commands[0]).value, commands[1..]);
      }
    }
  }

  lemma {:induction false} ReplayConcat(t: Tree, xs: seq<Command>, ys: seq<Command>)
    ensures Replay(t, xs).Err? ==> Replay(t, xs + ys).Err?
    ensures Replay(t, xs).Ok? ==> Replay(t, xs + ys) == Replay(Replay(t, xs).value, ys)
    decreases |xs|
  {
    if xs == [] {
      assert xs + ys == ys;
    } else {
      assert (xs + ys)[1..] == xs[1..] + ys;
      if Apply(t, xs[0]).Ok? {
        ReplayConcat(Apply(t, xs[0]).value, xs[1..], ys);
      }
    }
  }

  lemma ReplaysTransitive(a: Tree, xs: seq<Command>, b: Tree, ys: seq<Command>, c: Tree)
    requires Replays(a, xs, b) && Replays(b, ys, c)
    ensures Replays(a, xs + ys, c)
  {
    ReplayConcat(a, xs, ys);
    ReplayKeepsCap(a, xs);
    ReplayRespectsStructure(Replay(a, xs).value, b, ys);
  }

  lemma ReplaysNothing(a: Tree, b: Tree)
    requires SameStructure(a, b) && a.cap == b.cap
    ensures Replays(a, [], b)
  {
  }

  lemma ReplaysOne(a: Tree, c: Command, b: Tree)
    requires Apply(a, c).Ok? && SameStructure(Apply(a, c).value, b) && a.cap == b.cap
    ensures Replays(a, [c], b)
  {
    assert [c][1..] == [];
    assert Replay(Apply(a, c).value, []) == Apply(a, c);
  }

  /** Every command of a stream that replays meets, at its own place, the state it asks for. */
  lemma {:induction false} ReplayTargets(t: Tree, commands: seq<Command>, k: nat)
    requires WellFormed(t) && Replay(t, commands).Ok? && k < |commands|
    ensures Replay(t, commands[..k]).Ok?
    ensures WellTargeted(Replay(t, commands[..k]).value, commands[k])
  {
    assert commands == commands[..k] + commands[k..];
    ReplayConcat(t, commands[..k], commands[k..]);
    var here := Replay(t, commands[..k]).value;
    ReplayKeepsWellFormed(t, commands[..k]);
    assert Apply(here, commands[k..][0]).Ok?;
    ApplyKeepsWellFormed(here, commands[k]);
  }

  lemma {:induction false} DropContinueKeepsReplay(t: Tree, commands: seq<Command>, b: nat)
    requires Replay(t, commands).Ok?
    ensures Replay(t, DropContinue(commands, b)) == Replay(t, commands)
    decreases |commands|
  {
    if commands != [] {
      var next := Apply(t, commands[0]).value;
      DropContinueKeepsReplay(next, commands[1..], b);
      if commands[0] != Continue(b) {
        assert DropContinue(commands, b)[0] == commands[0];
        assert DropContinue(commands, b)[1..] == DropContinue(commands[1..], b);
      }
    }
  }

  lemma {:induction false} ReplayKnowsTerminated(t: Tree, commands: seq<Command>)
    requires Replay(t, commands).Ok?
    ensures forall b :: b in TerminatedBy(commands) ==> b < |Replay(t, commands).value.nodes|
    decreases |commands|
  {
    if commands != [] {
      ApplyKeepsCap(t, commands[0]);
      var next := Apply(t, commands[0]).value;
      ReplayKnowsTerminated(next, commands[1..]);
      ReplayKeepsCap(next, commands[1..]);
    }
  }

  // ---------------------------------------------------------------------------
  // Each branch ends once
  // ---------------------------------------------------------------------------

  function TerminalCommands(commands: seq<Command>, b: nat): nat {
    if commands == [] then 0
    else (if commands[0].Terminates(b) then 1 else 0) + TerminalCommands(commands[1..], b)
  }

  function TerminalBit(t: Tree, b: nat): nat {
    if t.TerminalAt(b) then 1 else 0
  }

  lemma ApplyTerminatesOnce(t: Tree, c: Command, b: nat)
    requires WellFormed(t) && Apply(t, c).Ok?
    ensures TerminalBit(Apply(t, c).value, b) == TerminalBit(t, b) + if c.Terminates(b) then 1 else 0
  {
    assert c.branch < |t.nodes|;
    if c.ForkAt? && |t.nodes| <= b < |t.nodes| + c.width {
      assert Apply(t, c).value.nodes[b] == ChildOf(t.nodes[c.branch], b);
    }
  }

  /** The commands that end a branch number one if the branch is terminal afterwards, none otherwise. */
  lemma {:induction false} ReplayTerminatesOnce(t: Tree, commands: seq<Command>, b: nat)
    requires WellFormed(t) && Replay(t, commands).Ok?
    ensures TerminalBit(Replay(t, commands).value, b) == TerminalBit(t, b) + TerminalCommands(commands, b)
    decreases |commands|
  {
    if commands != [] {
      ApplyTerminatesOnce(t, commands[0], b);
      ApplyKeepsWellFormed(t, commands[0]);
      ReplayTerminatesOnce(Apply(t, commands[0]).value, commands[1..], b);
    }
  }
}
