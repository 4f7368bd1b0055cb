/** `serverless deploy` for a service (src/lib/commands/Deploy.ts). */
module Deploy {
  import opened Wrappers
  import opened ServerlessNodes
  import opened CommandBase
  import ServerlessCli

  /** `super(true)`: deploying a service is exclusive. */
  const IsExclusive: Option<bool> := Some(Exclusive(Some(true)))

  /** `invoke(node)`: `stage` and `region` answer the prompts, `invoked` is
      how the `Serverless.invoke` promise settles. */
  function Invoke(node: NodeTree, c: Config, stage: Option<string>, region: Option<string>, invoked: Result<Unit>): (r: Run)
    ensures node.kind != CONTAINER ==> r == Run([], Err("Target must be a container"))
    ensures Invocations(r.effects) == if node.kind == CONTAINER && stage.Some? then 1 else 0
    ensures node.kind == CONTAINER && stage.None? ==> r.result == Err("Command cancelled")
    ensures node.kind == CONTAINER && stage.Some? ==>
              && r.result == invoked
              && r.effects[..|r.effects| - 1] == AskForStageAndRegion(c, stage, region).effects
              && r.effects[|r.effects| - 1]
                   == Effect.Invoke("deploy", ContainerOptions(node.documentRoot, AskForStageAndRegion(c, stage, region).result.value))
  {
    if node.kind != CONTAINER then Run([], Err("Target must be a container"))
    else
      var asked := AskForStageAndRegion(c, stage, region);
      AskedInvokesNothing(c, stage, region);
      match asked.result
      case Err(m) => Run(asked.effects, Err(m))
      case Ok(answers) =>
        var call := Effect.Invoke("deploy", ContainerOptions(node.documentRoot, answers));
        InvocationsAppend(asked.effects, [call]);
        assert (asked.effects + [call])[..|asked.effects|] == asked.effects;
        Run(asked.effects + [call], invoked)
  }

  /** The CLI call carries the answered region and stage and runs in the
      service's directory. */
  lemma DeployFlags(node: NodeTree, c: Config, stage: Option<string>, region: Option<string>, invoked: Result<Unit>, moduleDir: string)
    requires node.kind == CONTAINER && stage.Some?
    ensures var effects := Invoke(node, c, stage, region, invoked).effects;
            var answers := AskForStageAndRegion(c, stage, region).result.value;
            && ServerlessCli.FormatOptions(effects[|effects| - 1].options) == ["--region=" + answers[1], "--stage=" + answers[0]]
            && ServerlessCli.Cwd(effects[|effects| - 1].options, moduleDir)
                 == if node.documentRoot != "" then node.documentRoot else moduleDir
  {
    var answers := AskForStageAndRegion(c, stage, region).result.value;
    ContainerFlags(node.documentRoot, answers);
    CommandCwd(node.documentRoot, ContainerOptions(node.documentRoot, answers)[1..], moduleDir);
    assert ContainerOptions(node.documentRoot, answers)
             == [("cwd", ServerlessCli.Str(node.documentRoot))] + ContainerOptions(node.documentRoot, answers)[1..];
  }
}
