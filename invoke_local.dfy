/** `serverless invoke local` for one function with an event file the
    user picks (src/lib/commands/InvokeLocal.ts). */
module InvokeLocal {
  import opened Wrappers
  import opened ServerlessNodes
  import opened CommandBase
  import ServerlessCli
  import Paths

  /** `super()`: invoking locally is not exclusive. */
  const IsExclusive: Option<bool> := Some(Exclusive(None))

  /** The open dialog: one file, no folders, JSON event files. */
  const EventDialog: Effect := OpenDialog(true, false, false, "Event JSON", ["json"], "Select event")

  /** `{ cwd, function, path, stage }`, in key order. */
  function LocalOptions(documentRoot: string, name: string, path: string, stage: string): ServerlessCli.Options
  {
    [("cwd", ServerlessCli.Str(documentRoot)), ("function", ServerlessCli.Str(name)),
     ("path", ServerlessCli.Str(path)), ("stage", ServerlessCli.Str(stage))]
  }

  /** `invoke(node)`: `stage` answers the stage prompt, `files` is what the
      dialog returns (`None` when it is dismissed), `invoked` is how the
      `Serverless.invoke` promise settles. */
  function Invoke(node: NodeTree, c: Config, stage: Option<string>, files: Option<seq<string>>, invoked: Result<Unit>): (r: Run)
    ensures node.kind != FUNCTION ==> r == Run([], Err("Target must be a function"))
    ensures node.kind == FUNCTION && stage.None? ==> r == Run([StagePrompt(c)], Err("Command cancelled"))
    ensures node.kind == FUNCTION && stage.Some? && (files.None? || files.value == []) ==>
              r == Run([StagePrompt(c), EventDialog], Ok(Unit))
    ensures Invocations(r.effects) == if node.kind == FUNCTION && stage.Some? && files.Some? && files.value != [] then 1 else 0
    ensures node.kind == FUNCTION && stage.Some? && files.Some? && files.value != [] ==>
              && r.result == invoked
              && r.effects == [StagePrompt(c), EventDialog,
                               Effect.Invoke("invoke local",
                                             LocalOptions(node.documentRoot, node.name,
                                                          Paths.Relative(node.documentRoot, files.value[0]),
                                                          AskForStage(c, stage).result.value))]
  {
    if node.kind != FUNCTION then Run([], Err("Target must be a function"))
    else
      var asked := AskForStage(c, stage);
      AskedInvokesNothing(c, stage, None);
      match asked.result
      case Err(m) => Run(asked.effects, Err(m))
      case Ok(s) =>
        var shown := asked.effects + [EventDialog];
        InvocationsAppend(asked.effects, [EventDialog]);
        assert [EventDialog][..0] == [];
        if files.None? || files.value == [] then Run(shown, Ok(Unit))
        else
          var path := Paths.Relative(node.documentRoot, files.value[0]);
          var call := Effect.Invoke("invoke local", LocalOptions(node.documentRoot, node.name, path, s));
          InvocationsAppend(shown, [call]);
          Run(shown + [call], invoked)
  }

  /** Only the first selected file is used. */
  lemma OnlyFirstFileUsed(node: NodeTree, c: Config, stage: Option<string>, files: seq<string>, invoked: Result<Unit>)
    requires files != []
    ensures Invoke(node, c, stage, Some(files), invoked) == Invoke(node, c, stage, Some([files[0]]), invoked)
  {
  }

  /** A `cwd` and three more string options, the last being the stage. */
  lemma ThreeStringFlags(cwd: string, k1: string, v1: string, k2: string, v2: string, v3: string)
    requires k1 != "cwd" && k1 != "stage" && k2 != "cwd" && k2 != "stage"
    ensures ServerlessCli.FormatOptions([("cwd", ServerlessCli.Str(cwd)), (k1, ServerlessCli.Str(v1)),
                                         (k2, ServerlessCli.Str(v2)), ("stage", ServerlessCli.Str(v3))])
              == ["--" + k1 + "=" + v1, "--" + k2 + "=" + v2, "--" + "stage" + "=" + v3]
  {
    var opts := [("cwd", ServerlessCli.Str(cwd)), (k1, ServerlessCli.Str(v1)),
                 (k2, ServerlessCli.Str(v2)), ("stage", ServerlessCli.Str(v3))];
    var rest := [(k1, ServerlessCli.Str(v1)), (k2, ServerlessCli.Str(v2)), ("stage", ServerlessCli.Str(v3))];
    assert opts == [("cwd", ServerlessCli.Str(cwd))] + rest;
    assert ServerlessCli.Keys(rest)[2] == "stage";
    ServerlessCli.LeadingCwdEffective(cwd, rest);
    ServerlessCli.StrFlagAt(opts, 0);
    ServerlessCli.StrFlagAt(opts, 1);
    ServerlessCli.StrFlagAt(opts, 2);
    var f := ServerlessCli.FormatOptions(opts);
    assert |f| == 3;
    ThreeElements(f, "--" + k1 + "=" + v1, "--" + k2 + "=" + v2, "--" + "stage" + "=" + v3);
  }

  /** A sequence of three given elements, whatever they are. */
  lemma ThreeElements<T>(g: seq<T>, a: T, b: T, c: T)
    requires |g| == 3 && g[0] == a && g[1] == b && g[2] == c
    ensures g == [a, b, c]
  {
  }

  /** The CLI call names the function, the event file relative to the
      service directory, and the stage. */
  lemma InvokeLocalFlags(node: NodeTree, c: Config, stage: Option<string>, file: string, invoked: Result<Unit>)
    requires node.kind == FUNCTION && stage.Some?
    ensures var call := Invoke(node, c, stage, Some([file]), invoked).effects[2];
            ServerlessCli.FormatOptions(call.options)
              == ["--function=" + node.name, "--path=" + Paths.Relative(node.documentRoot, file),
                  "--stage=" + AskForStage(c, stage).result.value]
  {
    ThreeStringFlags(node.documentRoot, "function", node.name, "path", Paths.Relative(node.documentRoot, file),
                     AskForStage(c, stage).result.value);
    FlagPrefixes();
  }

  /** An event file picked inside the service directory is passed by its
      name below that directory. */
  lemma EventPathRelative(node: NodeTree, c: Config, stage: Option<string>, file: string, invoked: Result<Unit>)
    requires node.kind == FUNCTION && stage.Some? && node.documentRoot != "" && file != ""
    ensures Invoke(node, c, stage, Some([Paths.Join(node.documentRoot, file)]), invoked).effects[2].options[2]
              == ("path", ServerlessCli.Str(file))
  {
    Paths.RelativeJoin(node.documentRoot, file);
  }
}
