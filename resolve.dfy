/** `serverless print`, shown as a new untitled document
    (src/lib/commands/Resolve.ts). */
module Resolve {
  import opened Wrappers
  import opened ServerlessNodes
  import opened CommandBase
  import Paths

  /** `super()`: resolving is not exclusive. */
  const IsExclusive: Option<bool> := Some(Exclusive(None))

  /** `Uri.parse("untitled:" + path.join(root, "resolved.yml"))`. */
  function ResolvedUri(documentRoot: string): string
  {
    "untitled:" + Paths.Join(documentRoot, "resolved.yml")
  }

  /** `invoke(node)`: `stage` and `region` answer the prompts, `printed` is
      how the `Serverless.invokeWithResult` promise settles. */
  function Invoke(node: NodeTree, c: Config, stage: Option<string>, region: Option<string>, printed: Result<string>): (r: Run)
    ensures node.kind != CONTAINER ==> r == Run([], Err("Target must be a container"))
    ensures node.kind == CONTAINER && stage.None? ==> r.result == Err("Command cancelled")
    ensures Invocations(r.effects) == if node.kind == CONTAINER && stage.Some? then 1 else 0
    ensures node.kind == CONTAINER && stage.Some? ==>
              var asked := AskForStageAndRegion(c, stage, region);
              var call := Effect.InvokeWithResult("print", ContainerOptions(node.documentRoot, asked.result.value));
              && (printed.Err? ==> r == Run(asked.effects + [call], Err(printed.message)))
              && (printed.Ok? ==> r == Run(asked.effects + [call, OpenTextDocument(ResolvedUri(node.documentRoot)),
                                                            ShowTextDocument(ResolvedUri(node.documentRoot)),
                                                            InsertText(0, 0, printed.value)], Ok(Unit)))
  {
    if node.kind != CONTAINER then Run([], Err("Target must be a container"))
    else
      var asked := AskForStageAndRegion(c, stage, region);
      AskedInvokesNothing(c, stage, region);
      match asked.result
      case Err(m) => Run(asked.effects, Err(m))
      case Ok(answers) =>
        var call := Effect.InvokeWithResult("print", ContainerOptions(node.documentRoot, answers));
        match printed
        case Err(m) =>
          InvocationsAppend(asked.effects, [call]);
          Run(asked.effects + [call], Err(m))
        case Ok(text) =>
          var uri := ResolvedUri(node.documentRoot);
          var editing := [OpenTextDocument(uri), ShowTextDocument(uri), InsertText(0, 0, text)];
          var shown := [call] + editing;
          NoInvocations(editing);
          InvocationsAppend([call], editing);
          InvocationsAppend(asked.effects, shown);
          Run(asked.effects + shown, Ok(Unit))
  }

  /** A failed `print` opens no document; a successful one inserts its
      output unchanged at the start of the document. */
  lemma OutputInsertedOnlyOnSuccess(node: NodeTree, c: Config, stage: Option<string>, region: Option<string>, printed: Result<string>)
    requires node.kind == CONTAINER && stage.Some?
    ensures var r := Invoke(node, c, stage, region, printed);
            && (printed.Err? ==> forall k :: 0 <= k < |r.effects| ==> !r.effects[k].OpenTextDocument? && !r.effects[k].InsertText?)
            && (printed.Ok? ==> r.effects[|r.effects| - 1] == InsertText(0, 0, printed.value))
  {
    var asked := AskForStageAndRegion(c, stage, region);
    assert forall k :: 0 <= k < |asked.effects| ==> asked.effects[k].InputBox?;
  }

  /** The resolved document sits in the service's directory. */
  lemma ResolvedBesideService(documentRoot: string)
    requires documentRoot != "" && documentRoot != "/"
    ensures ResolvedUri(documentRoot) == "untitled:" + documentRoot + "/resolved.yml"
    ensures Paths.Dirname(ResolvedUri(documentRoot)[|"untitled:"|..]) == documentRoot
  {
    Paths.DirnameJoin(documentRoot, "resolved.yml");
    assert ResolvedUri(documentRoot)[|"untitled:"|..] == Paths.Join(documentRoot, "resolved.yml");
  }
}
