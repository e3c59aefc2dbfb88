/** The scheduler's input events and output commands (scheduler/src/command.rs). */
module Commands {
  import opened Common
  import opened Arena

  /** The three token variants of the source differ only in which metadata they carry. */
  datatype EngineEvent =
    | TokenSampled(token: nat, logprob: Float, eos: bool, entropy: Option<Float>, branch: nat)
    | BranchExhausted(branch: nat)
    | ValueScored(score: Float, branch: nat)

  datatype Command =
    | ForkAt(branch: nat, width: nat)
    | KillBranch(branch: nat, reason: KillReason)
    | Continue(branch: nat)
    | FinalizeBranch(branch: nat)
  {
    predicate Terminates(b: nat) {
      (KillBranch? || FinalizeBranch?) && branch == b
    }
  }

  /** The queue without the Continue entries of one branch. */
  function DropContinue(queue: seq<Command>, b: nat): (r: seq<Command>)
    ensures forall c :: c in r <==> c in queue && c != Continue(b)
  {
    if queue == [] then []
    else if queue[0] == Continue(b) then DropContinue(queue[1..], b)
    else [queue[0]] + DropContinue(queue[1..], b)
  }

  /** The branches a list of commands kills or finalizes, in order. */
  function TerminatedBy(commands: seq<Command>): (r: seq<nat>)
    ensures forall c :: c in commands && (c.KillBranch? || c.FinalizeBranch?) ==> c.branch in r
  {
    if commands == [] then []
    else
      var rest := TerminatedBy(commands[1..]);
      if commands[0].KillBranch? || commands[0].FinalizeBranch? then [commands[0].branch] + rest else rest
  }
}
