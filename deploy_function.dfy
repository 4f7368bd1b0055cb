/** `serverless deploy function` for one function
    (src/lib/commands/DeployFunction.ts). */
module DeployFunction {
  import opened Wrappers
  import opened ServerlessNodes
  import opened CommandBase
  import ServerlessCli

  /** `super()`: deploying one function is not exclusive. */
  const IsExclusive: Option<bool> := Some(Exclusive(None))

  /** `invoke(node)`: `stage` answers the stage prompt, `invoked` is how the
      `Serverless.invoke` promise settles. */
  function Invoke(node: NodeTree, c: Config, stage: Option<string>, invoked: Result<Unit>): (r: Run)
    ensures node.kind != FUNCTION ==> r == Run([], Err("Target must be a function"))
    ensures Invocations(r.effects) == if node.kind == FUNCTION && stage.Some? then 1 else 0
    ensures node.kind == FUNCTION && stage.None? ==> r.result == Err("Command cancelled")
    ensures node.kind == FUNCTION && stage.Some? ==>
              && r.result == invoked
              && r.effects == [StagePrompt(c),
                               Effect.Invoke("deploy function",
                                             FunctionOptions(node.documentRoot, node.name, AskForStage(c, stage).result.value))]
  {
    if node.kind != FUNCTION then Run([], Err("Target must be a function"))
    else
      var asked := AskForStage(c, stage);
      AskedInvokesNothing(c, stage, None);
      match asked.result
      case Err(m) => Run(asked.effects, Err(m))
      case Ok(s) =>
        var call := Effect.Invoke("deploy function", FunctionOptions(node.documentRoot, node.name, s));
        InvocationsAppend(asked.effects, [call]);
        Run(asked.effects + [call], invoked)
  }

  /** The CLI call names the function and the stage and carries no region. */
  lemma DeployFunctionFlags(node: NodeTree, c: Config, stage: Option<string>, invoked: Result<Unit>)
    requires node.kind == FUNCTION && stage.Some?
    ensures var call := Invoke(node, c, stage, invoked).effects[1];
            ServerlessCli.FormatOptions(call.options)
              == ["--function=" + node.name, "--stage=" + AskForStage(c, stage).result.value]
  {
    FunctionFlags(node.documentRoot, node.name, AskForStage(c, stage).result.value);
  }
}
