/** What every command shares (src/lib/CommandBase.ts): the stage and
    region prompts with their defaults, the `isExclusive` default, and the
    observable effects a command produces. VS Code's prompts are not
    shown: each prompt's answer is an input (`None` for a cancelled box). */
module CommandBase {
  import opened Wrappers
  import ServerlessCli

  /** The three settings read from the workspace configuration; `None`
      when a setting is not configured. */
  datatype Config = Config(defaultStage: Option<string>, defaultRegion: Option<string>, askForRegion: Option<bool>)

  /** `value || fallback` for a string that may be missing. */
  function OrElse(v: Option<string>, fallback: string): (s: string)
    ensures v.Some? && v.value != "" ==> s == v.value
    ensures v.None? || v.value == "" ==> s == fallback
  {
    if v.Some? && v.value != "" then v.value else fallback
  }

  function DefaultStage(c: Config): string
  {
    OrElse(c.defaultStage, "dev")
  }

  function DefaultRegion(c: Config): string
  {
    OrElse(c.defaultRegion, "us-east-1")
  }

  /** `configuration.get("serverless.aws.askForRegion") || false`. */
  function AskForRegion(c: Config): (b: bool)
    ensures b <==> c.askForRegion == Some(true)
  {
    match c.askForRegion
    case Some(b) => b
    case None => false
  }

  /** What a command makes the editor or the CLI wrapper do, in order. */
  datatype Effect =
    | InputBox(placeHolder: string, prompt: string)
    | Invoke(command: string, options: ServerlessCli.Options)
    | InvokeWithResult(command: string, options: ServerlessCli.Options)
    | OpenDialog(canSelectFiles: bool, canSelectFolders: bool, canSelectMany: bool,
                 filterName: string, extensions: seq<string>, openLabel: string)
    | OpenTextDocument(uri: string)
    | ShowTextDocument(uri: string)
    | InsertText(line: nat, character: nat, text: string)
    | ShowFile(path: string, preview: bool)

  /** The prompts shown while asking, and what the asking resolves to. */
  datatype Asked<T> = Asked(effects: seq<Effect>, result: Result<T>)

  /** The effects of one command invocation and how its promise settles. */
  datatype Run = Run(effects: seq<Effect>, result: Result<Unit>)

  function StagePrompt(c: Config): Effect
  {
    InputBox(DefaultStage(c), "Stage (defaults to " + DefaultStage(c) + ")")
  }

  function RegionPrompt(c: Config): Effect
  {
    InputBox(DefaultRegion(c), "Region (defaults to " + DefaultRegion(c) + ")")
  }

  /** `askForStageAndRegion()`, given the answer to the stage box and, if
      it is shown, the answer to the region box. */
  function AskForStageAndRegion(c: Config, stage: Option<string>, region: Option<string>): (r: Asked<seq<string>>)
    ensures r.effects == [StagePrompt(c)] + (if stage.Some? && AskForRegion(c) then [RegionPrompt(c)] else [])
    ensures stage.None? ==> r.result == Err("Command cancelled")
    ensures stage.Some? ==> && r.result.Ok? && |r.result.value| == 2
                            && (stage.value != "" ==> r.result.value[0] == stage.value)
                            && (stage.value == "" ==> r.result.value[0] == DefaultStage(c))
                            && (AskForRegion(c) && region.Some? && region.value != "" ==> r.result.value[1] == region.value)
                            && (!AskForRegion(c) || region.None? || region.value == "" ==> r.result.value[1] == DefaultRegion(c))
  {
    if stage.None? then Asked([StagePrompt(c)], Err("Command cancelled"))
    else if AskForRegion(c) then
      Asked([StagePrompt(c), RegionPrompt(c)], Ok([OrElse(stage, DefaultStage(c)), OrElse(region, DefaultRegion(c))]))
    else Asked([StagePrompt(c)], Ok([OrElse(stage, DefaultStage(c)), DefaultRegion(c)]))
  }

  /** `askForStage()`, which the commands call but which is not part of
      CommandBase.ts: the stage half of `askForStageAndRegion`. */
  function AskForStage(c: Config, stage: Option<string>): (r: Asked<string>)
    ensures r.effects == [StagePrompt(c)]
  {
    if stage.None? then Asked([StagePrompt(c)], Err("Command cancelled"))
    else Asked([StagePrompt(c)], Ok(OrElse(stage, DefaultStage(c))))
  }

  /** `askForStage` asks and answers exactly what the stage half of
      `askForStageAndRegion` asks and answers. */
  lemma AskForStageIsStageHalf(c: Config, stage: Option<string>, region: Option<string>)
    ensures var both := AskForStageAndRegion(c, stage, region);
            && AskForStage(c, stage).effects == both.effects[..1]
            && AskForStage(c, stage).result == (if both.result.Ok? then Ok(both.result.value[0]) else Err(both.result.message))
  {
  }

  /** Only the stage box cancels: a cancelled region box falls back to the
      default region. */
  lemma OnlyStageCancels(c: Config, stage: Option<string>, region: Option<string>)
    ensures AskForStageAndRegion(c, stage, region).result.Err? <==> stage.None?
    ensures AskForStageAndRegion(c, stage, region).result.Ok? ==>
              AskForStageAndRegion(c, stage, Some("")).result == AskForStageAndRegion(c, stage, None).result
  {
  }

  /** An answer never carries an empty stage or region. */
  lemma AnswersNotEmpty(c: Config, stage: Option<string>, region: Option<string>)
    ensures AskForStageAndRegion(c, stage, region).result.Ok? ==>
              forall k :: 0 <= k < 2 ==> AskForStageAndRegion(c, stage, region).result.value[k] != ""
    ensures AskForStage(c, stage).result.Ok? ==> AskForStage(c, stage).result.value != ""
  {
  }

  /** `constructor(public readonly isExclusive: boolean = false)`. */
  function Exclusive(arg: Option<bool>): (b: bool)
    ensures b <==> arg == Some(true)
  {
    match arg
    case Some(b) => b
    case None => false
  }

  /** How many calls into the CLI wrapper the effects contain. */
  function Invocations(effects: seq<Effect>): (n: nat)
    ensures n <= |effects|
  {
    if |effects| == 0 then 0
    else Invocations(effects[..|effects| - 1])
           + (if effects[|effects| - 1].Invoke? || effects[|effects| - 1].InvokeWithResult? then 1 else 0)
  }

  /** Prompts never call the CLI. */
  lemma {:induction false} InvocationsAppend(a: seq<Effect>, b: seq<Effect>)
    ensures Invocations(a + b) == Invocations(a) + Invocations(b)
    decreases |b|
  {
    if |b| > 0 {
      InvocationsAppend(a, b[..|b| - 1]);
      assert (a + b)[..|a + b| - 1] == a + b[..|b| - 1];
    } else {
      assert a + b == a;
    }
  }

  /** Effects without a CLI call count none. */
  lemma {:induction false} NoInvocations(effects: seq<Effect>)
    requires forall k :: 0 <= k < |effects| ==> !effects[k].Invoke? && !effects[k].InvokeWithResult?
    ensures Invocations(effects) == 0
    decreases |effects|
  {
    if |effects| > 0 {
      NoInvocations(effects[..|effects| - 1]);
    }
  }

  lemma AskedInvokesNothing(c: Config, stage: Option<string>, region: Option<string>)
    ensures Invocations(AskForStageAndRegion(c, stage, region).effects) == 0
    ensures Invocations(AskForStage(c, stage).effects) == 0
  {
    NoInvocations(AskForStageAndRegion(c, stage, region).effects);
    NoInvocations(AskForStage(c, stage).effects);
  }

  /** `{ cwd, region: result[1], stage: result[0] }` of the container
      commands, in key order. */
  function ContainerOptions(documentRoot: string, answers: seq<string>): ServerlessCli.Options
    requires |answers| == 2
  {
    [("cwd", ServerlessCli.Str(documentRoot)), ("region", ServerlessCli.Str(answers[1])), ("stage", ServerlessCli.Str(answers[0]))]
  }

  /** `{ cwd, function: node.name, stage }` of the function commands. */
  function FunctionOptions(documentRoot: string, name: string, stage: string): ServerlessCli.Options
  {
    [("cwd", ServerlessCli.Str(documentRoot)), ("function", ServerlessCli.Str(name)), ("stage", ServerlessCli.Str(stage))]
  }

  /** The literal prefixes of the flags the commands pass. */
  lemma FlagPrefixes()
    ensures "--" + "region" + "=" == "--region="
    ensures "--" + "stage" + "=" == "--stage="
    ensures "--" + "function" + "=" == "--function="
    ensures "--" + "path" + "=" == "--path="
  {
  }

  /** A `cwd` and two more string options, the second being the stage. */
  lemma TwoStringFlags(cwd: string, k1: string, v1: string, v2: string)
    requires k1 != "cwd" && k1 != "stage"
    ensures ServerlessCli.FormatOptions([("cwd", ServerlessCli.Str(cwd)), (k1, ServerlessCli.Str(v1)), ("stage", ServerlessCli.Str(v2))])
              == ["--" + k1 + "=" + v1, "--" + "stage" + "=" + v2]
  {
    var opts := [("cwd", ServerlessCli.Str(cwd)), (k1, ServerlessCli.Str(v1)), ("stage", ServerlessCli.Str(v2))];
    var rest := [(k1, ServerlessCli.Str(v1)), ("stage", ServerlessCli.Str(v2))];
    assert opts == [("cwd", ServerlessCli.Str(cwd))] + rest;
    assert ServerlessCli.Keys(rest)[1] == "stage";
    ServerlessCli.LeadingCwdEffective(cwd, rest);
    ServerlessCli.StrFlagAt(opts, 0);
    ServerlessCli.StrFlagAt(opts, 1);
    var f := ServerlessCli.FormatOptions(opts);
    assert |f| == 2;
    TwoElements(f, "--" + k1 + "=" + v1, "--" + "stage" + "=" + v2);
  }

  /** A sequence of two given elements, whatever they are. */
  lemma TwoElements<T>(g: seq<T>, a: T, b: T)
    requires |g| == 2 && g[0] == a && g[1] == b
    ensures g == [a, b]
  {
  }

  /** The container commands pass `--region` and `--stage`. */
  lemma ContainerFlags(documentRoot: string, answers: seq<string>)
    requires |answers| == 2
    ensures ServerlessCli.FormatOptions(ContainerOptions(documentRoot, answers))
              == ["--region=" + answers[1], "--stage=" + answers[0]]
  {
    TwoStringFlags(documentRoot, "region", answers[1], answers[0]);
    FlagPrefixes();
  }

  /** The function commands pass `--function` and `--stage` and no region. */
  lemma FunctionFlags(documentRoot: string, name: string, stage: string)
    ensures ServerlessCli.FormatOptions(FunctionOptions(documentRoot, name, stage))
              == ["--function=" + name, "--stage=" + stage]
  {
    TwoStringFlags(documentRoot, "function", name, stage);
    FlagPrefixes();
  }

  /** Every command runs the CLI in the node's document root when it is
      not empty, and in the module's directory otherwise. */
  lemma CommandCwd(documentRoot: string, rest: ServerlessCli.Options, moduleDir: string)
    ensures ServerlessCli.Cwd([("cwd", ServerlessCli.Str(documentRoot))] + rest, moduleDir)
              == if documentRoot != "" then documentRoot else moduleDir
  {
  }
}
