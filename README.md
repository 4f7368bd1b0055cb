# serverless-vscode core, modelled in Dafny

The repository is a VS Code extension for Serverless Framework services.
When the active editor holds a `serverless.yml`, the extension shows an
outline of the service. The outline has a "Service" root with two
containers:

- "Functions": one node per declared function, with an "HTTP" container
  holding the function's HTTP events;
- "API": the HTTP routes as a tree of path segments, with one method node
  per event.

The extension also registers commands on these nodes. The commands are:
deploy, package, deploy function, logs, invoke local, resolve and
open handler. Every command except open handler first asks for a stage
(and sometimes a region), then runs the Serverless CLI in a child process,
with options formatted as `--key=value` flags. Open handler asks nothing
and runs no CLI: it opens the source file of a function's handler. A shared flag keeps exclusive commands from
overlapping.

The model follows the source file by file:

- `serverless_node.dfy` (module `ServerlessNodes`): `ServerlessNode` is a
  class with the source's fields. A ghost `Repr` footprint makes each node
  head a finite tree of distinct objects. Its ghost `Tree()` is the
  subtree's value, a `NodeTree` datatype.
  - `setDocumentRoot` is an imperative method proved against the pure
    function `WithRoot`.
- `outline_spec.dfy` (module `OutlineSpec`): pure definitions of the trees
  `parseService` and `addAPINode` build. These are the specification the
  provider's methods are proved against.
- `serverless_outline.dfy` (module `ServerlessOutline`): the tree provider
  as a class that owns the root node. Its parse methods rebuild the node
  objects in place. Each one states the new tree as a function of the old
  tree and the parsed service.
- `outline_props.dfy` (module `OutlineProperties`): what the outline
  shows:
  - one FUNCTION node per declaration;
  - an "HTTP" container exactly when a function has HTTP events;
  - one API method per routed event;
  - path nodes shared, never duplicated;
  - every method found under its own path;
  - document roots set only under "Functions".
- `serverless.dfy` (module `ServerlessCli`): `formatOptions`, the `cwd`
  choice, the argv of `spawn`, and the two process wrappers.
  - Each wrapper is a class method that consumes the child process's
    events in order, proved against functions that define the channel
    text and how the promise settles.
- `command_base.dfy` (module `CommandBase`): the stage/region prompts as
  functions of the configuration and the user's answers. A command's
  observable behaviour is a `Run`: the effects it produces, in order, and
  how its promise settles.
- `command_handler.dfy` (module `CommandHandlers`): the wrapper `invoke`
  as a class over the shared running flag. There is also a trace model of
  interleaved invocations, proving that two exclusive commands never run
  at once. How the command's own `invoke` comes back is an input
  (`CommandRun`): a promise that settles, or a synchronous throw. Every
  command reads `node.kind` first, so invoking one with an undefined
  `node` throws after `CommandHandler.ts:38` has set the flag; no settle
  handler runs, and an exclusive command's flag then stays set. The trace
  model has that throw as an event of its own (`Threw`), and "## Findings"
  below compares the handler as written with one that clears the flag.
- one file per command (`deploy.dfy`, `package.dfy`,
  `deploy_function.dfy`, `logs.dfy`, `invoke_local.dfy`, `resolve.dfy`,
  `open_handler.dfy`):
  - `invoke` is a function from the node, the configuration and the
    user's answers to the `Run`;
  - lemmas state the exact CLI flags each command produces.
- `text.dfy`, `paths.dfy`, `wrappers.dfy`: the lodash string helpers,
  Node's `path` functions and `Option`/`Result`, for the inputs the
  extension gives them.

The host's inputs are explicit parameters:

- the active editor, the parsed YAML and the answers to prompts and
  dialogs;
- the events a child process emits;
- the extension's own directory (`moduleDir`, standing for `__dirname`);
- `existsSync` and `asAbsolutePath`, passed as functions.

### Where the sources disagree with one another

The model follows the code in each case below.

- The three function commands deploy function, logs and invoke local call
  `CommandBase.askForStage()`, but
  `src/lib/CommandBase.ts` defines only `askForStageAndRegion`.
  `CommandBase.AskForStage` is that method's stage half: the same prompt,
  the same cancellation and the same fallback to the default stage. A
  lemma proves the correspondence.
- `src/lib/commands/DeployFunction.ts:25-29` passes `cwd`, `function` and
  `stage`, with no region. The repository's expectation in
  `test/lib/commands/DeployFunction.test.ts:93-98` also lists a region key.
  `DeployFunction.DeployFunctionFlags` states the flags as the command
  file builds them.
- `src/lib/commands/OpenHandler.ts:6` imports `Command` from
  `CommandHandler`, which does not export it. The class does not extend
  `CommandBase`, so it has no `isExclusive`. `CommandHandlers.CommandHandler`
  takes the property as `Option<bool>`, with `None` for a command that
  has none, which `if (isExclusive)` treats as false.

## Model

| member | source | states |
|---|---|---|
| `ServerlessNodes.KindNamesDistinct` | src/lib/ServerlessNode.ts:4-10 | the `NodeKind` members' string values, used as `contextValue`, are pairwise distinct, so a node's context value names its kind |
| `ServerlessNodes.ServerlessNode.constructor` | src/lib/ServerlessNode.ts:20-26 | a new node has the given name, kind and data, no children and an empty document root; its footprint is itself |
| `ServerlessNodes.ServerlessNode.Tree` | src/lib/ServerlessNode.ts:14-18 | the subtree's value carries the node's own name, kind, document root and data, and one child value per child object |
| `ServerlessNodes.ServerlessNode.HasChildren` | src/lib/ServerlessNode.ts:28-30 | true exactly when the subtree's children are not empty |
| `ServerlessNodes.ServerlessNode.GetCommand` | src/lib/ServerlessNode.ts:32-37 | no node kind yields a command |
| `ServerlessNodes.ServerlessNode.AddChild` | src/lib/serverlessOutline.ts:134 | `children.push` of a disjoint valid subtree: the tree gains that subtree as its last child, nothing else changes |
| `ServerlessNodes.ServerlessNode.SetDocumentRoot` | src/lib/ServerlessNode.ts:39-42 | the new tree is `WithRoot(old tree, root)`; no node is added or removed and the children keep their order |
| `ServerlessNodes.ServerlessNode.SetChildDocumentRoot` | src/lib/ServerlessNode.ts:41 | one turn of the `forEach`: child `i` gets the root throughout its subtree, every other child is unchanged |
| `ServerlessNodes.WithRootRootsAll` | src/lib/ServerlessNode.ts:39-42 | after `setDocumentRoot(root)` every node of the subtree, at any depth, has document root `root` |
| `ServerlessNodes.WithRootKeepsShape` | src/lib/ServerlessNode.ts:39-42 | `setDocumentRoot` changes no name, kind, data or child order |
| `ServerlessNodes.WithRootOfRooted` | src/lib/ServerlessNode.ts:39-42 | a tree already rooted at `root` is left unchanged |
| `ServerlessNodes.WithRootIdempotent` | src/lib/ServerlessNode.ts:39-42 | setting the same root twice is the same as setting it once |
| `ServerlessNodes.WithRootLastWins` | src/lib/ServerlessNode.ts:39-42 | of two successive calls, the second alone decides the result |
| `OutlineSpec.IndexOfName` | src/lib/serverlessOutline.ts:97 | `_.find` by name: the position of the first child with that name, none exactly when no child has it |
| `OutlineSpec.Https` | src/lib/serverlessOutline.ts:121 | the filtered HTTP events are no more than the events |
| `OutlineSpec.HttpMethodNodes` | src/lib/serverlessOutline.ts:124-129 | the "HTTP" container holds, for each HTTP event in order, an APIMETHOD named after the event's path and carrying it |
| `OutlineSpec.FindOrCreate` | src/lib/serverlessOutline.ts:97-102 | the step lands on the first child named `seg`; the node is unchanged when one exists, else a new APIPATH for `seg` is appended and chosen |
| `OutlineSpec.ApiInsert` | src/lib/serverlessOutline.ts:96-107 | the walk never changes the name, kind, document root or data of the node it starts from |
| `OutlineSpec.AddApiNode` | src/lib/serverlessOutline.ts:93-108 | adding a route never changes the API root's own fields |
| `OutlineSpec.FoldApi` | src/lib/serverlessOutline.ts:128 | adding a sequence of routes never changes the API root's own fields |
| `OutlineSpec.FoldApiConcat` | src/lib/serverlessOutline.ts:116-135 | the API tree built across several functions is the routes of each added in turn: folding `a + b` is folding `a` and then `b` |
| `OutlineSpec.ContainersStep` | src/lib/serverlessOutline.ts:116-135 | one more declaration that builds appends its FUNCTION node to "Functions" and adds its HTTP events to "API" |
| `OutlineSpec.HttpContainerStep` | src/lib/serverlessOutline.ts:124-129 | one more HTTP event appends one method node to the "HTTP" container and adds that event's route to the API tree |
| `ServerlessOutline.FindOrCreate` | src/lib/serverlessOutline.ts:97-102 | on the node objects: the new tree and chosen position are those of `OutlineSpec.FindOrCreate`, and the returned node is that child |
| `ServerlessOutline.InsertApiPath` | src/lib/serverlessOutline.ts:96-107 | the `reduce` walk plus the final push: the node's new tree is `ApiInsert(old tree, segs, h)` |
| `ServerlessOutline.DescendInto` | src/lib/serverlessOutline.ts:96-103 | descending into child `i` replaces exactly that child's subtree by the walk's result |
| `ServerlessOutline.InsertInChild` | src/lib/serverlessOutline.ts:96-103 | the walk inside child `i` changes that child's subtree as `ApiInsert` says and leaves its siblings' subtrees unchanged |
| `ServerlessOutline.AddApiNode` | src/lib/serverlessOutline.ts:93-108 | the API root's new tree is `OutlineSpec.AddApiNode` of the old one for the node's HTTP data |
| `ServerlessOutline.AddHttpMethod` | src/lib/serverlessOutline.ts:125-128 | one `forEach` turn: the "HTTP" container gains the APIMETHOD for the event, and the API tree gains its route |
| `ServerlessOutline.BuildHttpContainer` | src/lib/serverlessOutline.ts:123-129 | a fresh "HTTP" container holding `HttpMethodNodes(hs)`, and the API tree folded over `hs` |
| `ServerlessOutline.AttachHttpContainer` | src/lib/serverlessOutline.ts:123-130 | the FUNCTION node gains the "HTTP" container for `hs` as its last child; the API tree is folded over `hs` |
| `ServerlessOutline.BuildFunctionNode` | src/lib/serverlessOutline.ts:117-131 | a fresh FUNCTION node whose tree is `FunctionTree(name, decl)`; the API tree gains the declaration's HTTP events |
| `ServerlessOutline.ParseFunction` | src/lib/serverlessOutline.ts:117-132 | succeeds exactly when the declaration and its events can be read; on failure the API tree is unchanged |
| `ServerlessOutline.AddFunction` | src/lib/serverlessOutline.ts:116-135 | one `forOwn` callback: succeeds exactly when the declaration builds, and then "Functions" gains its FUNCTION node |
| `ServerlessOutline.AddEntry` | src/lib/serverlessOutline.ts:116-135 | turn `i` of `forOwn` keeps the containers equal to the specification trees of the first `i + 1` declarations whenever declaration `i` builds |
| `ServerlessOutline.BuildContainers` | src/lib/serverlessOutline.ts:111-135 | fresh disjoint containers; succeeds exactly when every declaration builds, and then the containers are `FunctionsTree(fs)` and `ApiTree(fs)` |
| `ServerlessOutline.PushContainers` | src/lib/serverlessOutline.ts:139-140 | the root gains "Functions" and then "API" as its last two children |
| `ServerlessOutline.ServerlessOutlineProvider.constructor` | src/lib/serverlessOutline.ts:32-41 | a fresh "Service" root, no change event fired, and the tree `AfterParse` of the empty root for the active editor |
| `ServerlessOutline.ServerlessOutlineProvider.GetChildren` | src/lib/serverlessOutline.ts:60-66 | the root's children when no element is given, else the element's; the values are exactly the subtree's children |
| `ServerlessOutline.MethodOf` | src/lib/serverlessOutline.ts:53-54 | `element.data.method`: the HTTP method of an APIMETHOD node's data, read as `""` when the data has none |
| `ServerlessOutline.ServerlessOutlineProvider.GetTreeItem` | src/lib/serverlessOutline.ts:43-58 | label and context value from the node; collapsed, expanded only for the root, or none exactly when childless; an icon exactly for APIMETHOD nodes with data, named after the lower-cased HTTP method |
| `ServerlessOutline.ServerlessOutlineProvider.Refresh` | src/lib/serverlessOutline.ts:68-75 | re-parses as `ParseYaml` does and fires exactly one change event |
| `ServerlessOutline.ServerlessOutlineProvider.ParseYaml` | src/lib/serverlessOutline.ts:77-91 | the tree becomes `AfterParse(old tree, editor)`: unchanged for another file, else the children are cleared and then replaced by the outline when the service loads and builds |
| `ServerlessOutline.ServerlessOutlineProvider.ParseService` | src/lib/serverlessOutline.ts:110-141 | succeeds exactly when every declaration builds, and then appends `Outline(functions, dirname(file))`; otherwise the root is unchanged |
| `OutlineProperties.FunctionNodesAre` | src/lib/serverlessOutline.ts:116-135 | "Functions" holds one FUNCTION node per declaration, in declaration order |
| `OutlineProperties.HttpsMembers` | src/lib/serverlessOutline.ts:121 | the filter keeps exactly the `http` members of the events that have one, and is empty exactly when no event has one |
| `OutlineProperties.FunctionHasHttpIff` | src/lib/serverlessOutline.ts:120-131 | a FUNCTION node has children exactly when some event is an HTTP event, and then its only child is the "HTTP" container of those events |
| `OutlineProperties.ApiInsertAddsOneMethod` | src/lib/serverlessOutline.ts:93-108 | every walk for a non-empty path adds exactly one APIMETHOD node |
| `OutlineProperties.FoldApiCountsMethods` | src/lib/serverlessOutline.ts:124-129 | adding a sequence of events adds one APIMETHOD per event with at least one path segment |
| `OutlineProperties.ApiTreeMethods` | src/lib/serverlessOutline.ts:110-141 | the "API" container shows exactly one APIMETHOD per routed HTTP event of the service |
| `OutlineProperties.SlashPathAddsNothing` | src/lib/serverlessOutline.ts:104-107 | an event whose path is "/" leaves the API tree unchanged |
| `OutlineProperties.ApiInsertKeepsUniquePaths` | src/lib/serverlessOutline.ts:96-103 | if no APIPATH has an earlier sibling of the same name before the walk, none has after it |
| `OutlineProperties.FoldApiKeepsUniquePaths` | src/lib/serverlessOutline.ts:124-129 | the same holds over any sequence of events |
| `OutlineProperties.ApiTreeSharesPaths` | src/lib/serverlessOutline.ts:110-141 | in the built "API" container, routes that share a segment share its APIPATH node at every depth |
| `OutlineProperties.MethodLandsAtItsPath` | src/lib/serverlessOutline.ts:93-108 | following the leading segments by name from the start node reaches a node whose last child is the new APIMETHOD, named after the last segment |
| `OutlineProperties.MethodLandsAt` | src/lib/serverlessOutline.ts:96-107 | the same for a path given as its leading segments and its last segment |
| `OutlineProperties.ApiInsertKeepsRoot` | src/lib/serverlessOutline.ts:93-108 | a walk over a tree with empty document roots keeps every document root empty |
| `OutlineProperties.FoldApiKeepsRoot` | src/lib/serverlessOutline.ts:124-129 | the same over any sequence of events |
| `OutlineProperties.OutlineShape` | src/lib/serverlessOutline.ts:137-140 | after a successful parse the root gains "Functions", one node per declaration, all rooted at the document's directory with their shape unchanged, then "API" with every document root empty |
| `ServerlessCli.Keys` | src/lib/Serverless.ts:100 | the option keys, one per option, in order |
| `ServerlessCli.Lookup` | src/lib/Serverless.ts:112 | `_.get`: none exactly when the key is absent, else a value stored under that key |
| `ServerlessCli.OmitProcessing` | src/lib/Serverless.ts:97 | `omitBy`: no processing key is left, and exactly the other options are kept |
| `ServerlessCli.FlagBareIffFalse` | src/lib/Serverless.ts:101-104 | a flag is bare `--key` exactly when its value is `false`, and otherwise reads `--key=` followed by the value's text |
| `ServerlessCli.FormatOptionsFlags` | src/lib/Serverless.ts:96-108 | one flag per caller key other than `cwd`, in the caller's order and each of that key, then `--stage=dev` when no stage was given; with keys free of `=`, no flag is `--cwd` or starts with `--cwd=`, and with distinct keys exactly one flag is a `stage` flag, the one carrying the caller's defined stage or "dev" |
| `ServerlessCli.FlagForIffSameKey` | src/lib/Serverless.ts:100-105 | for keys without `=`, the flag of one key is a flag of another key exactly when the two keys are the same |
| `ServerlessCli.Cwd` | src/lib/Serverless.ts:112 | a non-empty string `cwd` option is the directory as it is; a missing or empty `cwd` gives the extension's directory |
| `ServerlessCli.OmitProcessingKeepsOrder` | src/lib/Serverless.ts:97 | `omitBy` keeps the remaining keys in their order |
| `ServerlessCli.OmitProcessingDistinct` | src/lib/Serverless.ts:97 | distinct keys stay distinct |
| `ServerlessCli.NoCwdFlag` | src/lib/Serverless.ts:97-99 | no flag comes from `cwd` |
| `ServerlessCli.FlagOrder` | src/lib/Serverless.ts:97-105 | the flags follow the caller's key order with `cwd` removed, and a default stage comes last |
| `ServerlessCli.ExactlyOneStage` | src/lib/Serverless.ts:97-99 | exactly one effective option is `stage`, with the caller's value if it is a defined one, else "dev" |
| `ServerlessCli.DefaultStageOnce` | src/lib/Serverless.ts:97-99 | `_.defaults` leaves exactly one `stage` entry, with the stage's resolved value |
| `ServerlessCli.NoProcessingKept` | src/lib/Serverless.ts:97 | options without `cwd` pass through `omitBy` whole |
| `ServerlessCli.DefaultStageKept` | src/lib/Serverless.ts:97-99 | a given, defined stage is kept and nothing is added |
| `ServerlessCli.LeadingCwdEffective` | src/lib/Serverless.ts:97-99 | a leading `cwd` is consumed and string options carrying a stage pass unchanged |
| `ServerlessCli.StringFlags` | src/lib/Serverless.ts:96-108 | for a leading `cwd` and string options with a stage, there is one flag per remaining option, each `--key=value`, in order |
| `ServerlessCli.StrFlagAt` | src/lib/Serverless.ts:101-104 | the flag at a position whose effective value is a string is `--key=` followed by that string |
| `ServerlessCli.LookupOmit` | src/lib/Serverless.ts:97 | dropping `cwd` does not change what another key maps to |
| `ServerlessCli.LookupDistinct` | src/lib/Serverless.ts:112 | with distinct keys, `_.get` returns the value at the key's own position |
| `ServerlessCli.ArgvCarriesCommand` | src/lib/Serverless.ts:32-36 | argv is the CLI script, then words that join back to the command, then the flags |
| `ServerlessCli.TwoWordSplit` | src/lib/Serverless.ts:34 | a command of two space-free words splits into exactly those words |
| `ServerlessCli.FlagOfStr` | src/lib/Serverless.ts:104 | a string-valued option formats as `--key=` followed by the string |
| `ServerlessCli.DefaultFlags` | src/lib/Serverless.ts:96-108 | with no options the only flag is `--stage=dev` |
| `ServerlessCli.DefaultInvocationArgv` | src/lib/Serverless.ts:110-116 | `invoke` of a two-word command without options spawns the script with the two words and `--stage=dev` |
| `ServerlessCli.FirstSettle` | src/lib/Serverless.ts:40-58 | the position of the first `exit` or `error` event, none exactly when there is none |
| `ServerlessCli.Settle` | src/lib/Serverless.ts:55-57 | a settled promise ignores later `resolve`/`reject`; an unsettled one takes the first |
| `ServerlessCli.PrefixSettle` | src/lib/Serverless.ts:40-58 | one more event settles the promise only if nothing settled it before |
| `ServerlessCli.CaptureStep` | src/lib/Serverless.ts:40-58 | one more event extends the captured stdout and the outcome as that event's handler does |
| `ServerlessCli.CaptureChannelStep` | src/lib/Serverless.ts:48-56 | one more event extends the channel text by what that event's handler writes |
| `ServerlessCli.StreamStep` | src/lib/Serverless.ts:78-92 | one more event extends the streamed channel text and the outcome as that event's handler does |
| `ServerlessCli.CaptureHidesStdout` | src/lib/Serverless.ts:44-56 | unless some exit code is non-zero or `null`, the capture channel shows only stderr |
| `ServerlessCli.CaptureResolvesWithStdout` | src/lib/Serverless.ts:44-57 | a zero exit before any other settling event resolves with the stdout written before it |
| `ServerlessCli.StreamResolvesOnAnyExit` | src/lib/Serverless.ts:78-92 | streaming resolves at the first exit, whatever its code, and rejects only on a spawn error |
| `ServerlessCli.Serverless.constructor` | src/lib/Serverless.ts:19-21 | keeps the working directory; no channel yet |
| `ServerlessCli.Serverless.OnCaptureEvent` | src/lib/Serverless.ts:40-58 | one event through the capture handlers: stdout is captured, stderr (and the captured text at a failed exit) goes to the channel, the first settling event decides the outcome |
| `ServerlessCli.Serverless.CaptureNext` | src/lib/Serverless.ts:40-58 | the `i`-th event through the handlers turns the stdout and outcome after `i` events into those after `i + 1`, writing that event's text to the channel |
| `ServerlessCli.Serverless.CaptureEvents` | src/lib/Serverless.ts:40-58 | after every event: the channel gained `CaptureChannel(events)` and the outcome is `CaptureOutcome(events)` |
| `ServerlessCli.Serverless.InvokeCommandWithResult` | src/lib/Serverless.ts:23-60 | a channel "Serverless" with the header line, then the capture text; `node` spawned with the argv in the object's `cwd`; the outcome is `CaptureOutcome` |
| `ServerlessCli.Serverless.OnStreamEvent` | src/lib/Serverless.ts:78-92 | one event through the streaming handlers: both streams go to the channel, the first settling event decides the outcome |
| `ServerlessCli.Serverless.StreamEvents` | src/lib/Serverless.ts:78-92 | after every event: the channel gained all stdout and stderr in order and the outcome is `StreamOutcome(events)` |
| `ServerlessCli.Serverless.InvokeCommand` | src/lib/Serverless.ts:62-94 | a channel named after the command with the header line, then all output; the outcome is `StreamOutcome` |
| `ServerlessCli.Serverless.Invoke` | src/lib/Serverless.ts:110-116 | a fresh wrapper in `Cwd(options)`, spawning the formatted flags, streaming the output |
| `ServerlessCli.Serverless.InvokeWithResult` | src/lib/Serverless.ts:118-124 | a fresh wrapper in `Cwd(options)`, spawning the formatted flags, capturing stdout |
| `CommandBase.OrElse` | src/lib/CommandBase.ts:12 | `value \|\| fallback`: the value when it is a non-empty string, else the fallback |
| `CommandBase.AskForRegion` | src/lib/CommandBase.ts:14 | asking for a region is on exactly when the setting is `true` |
| `CommandBase.AskForStageAndRegion` | src/lib/CommandBase.ts:10-35 | the stage box, then the region box only when asking for regions; cancelled exactly when the stage box is dismissed; else `[stage or default, region or default]` |
| `CommandBase.AskForStage` | src/lib/CommandBase.ts:16-23 | one stage box and nothing more |
| `CommandBase.AskForStageIsStageHalf` | src/lib/CommandBase.ts:10-35 | `askForStage` shows the first prompt of `askForStageAndRegion` and answers its first element or its error |
| `CommandBase.OnlyStageCancels` | src/lib/CommandBase.ts:20-31 | only the stage box cancels; a dismissed region box means the default region, just as an empty answer does |
| `CommandBase.AnswersNotEmpty` | src/lib/CommandBase.ts:30-33 | no answer carries an empty stage or region |
| `CommandBase.Exclusive` | src/lib/CommandBase.ts:37 | `isExclusive` defaults to false and is true exactly when the subclass passes `true` |
| `CommandBase.Invocations` | src/lib/Serverless.ts:110-124 | the number of CLI calls among the effects, no more than their count |
| `CommandBase.InvocationsAppend` | src/lib/Serverless.ts:110-124 | CLI calls add up over concatenated effects |
| `CommandBase.NoInvocations` | src/lib/Serverless.ts:110-124 | effects with no CLI call count none |
| `CommandBase.AskedInvokesNothing` | src/lib/CommandBase.ts:10-35 | the prompts never call the CLI |
| `CommandBase.TwoStringFlags` | src/lib/Serverless.ts:96-108 | `cwd` plus one option and `stage` format as two flags in that order |
| `CommandBase.ContainerFlags` | src/lib/commands/Deploy.ts:25-29 | the container commands pass exactly `--region=` then `--stage=` with the answers |
| `CommandBase.FunctionFlags` | src/lib/commands/Logs.ts:25-29 | the function commands pass exactly `--function=` then `--stage=` and no region |
| `CommandBase.CommandCwd` | src/lib/Serverless.ts:112 | a command runs the CLI in the node's document root when it is set, else in the extension's directory |
| `CommandHandlers.CommandExclusivity` | src/lib/CommandHandler.ts:32-33 | a handler is exclusive exactly when its command's `isExclusive` is `true`: deploy and package are, deploy function, logs, invoke local, resolve and open handler are not |
| `CommandHandlers.StartStep` | src/lib/CommandHandler.ts:31-38 | an exclusive command while the flag is set is not called and shows the in-progress message; an exclusive one otherwise sets the flag; a non-exclusive one leaves it |
| `CommandHandlers.FinishStep` | src/lib/CommandHandler.ts:41-51 | an exclusive command clears the flag when it settles either way; a failure shows "Serverless: " and its message; a success shows nothing |
| `CommandHandlers.RunningFlag.constructor` | src/lib/CommandHandler.ts:13 | the shared flag starts cleared |
| `CommandHandlers.CommandHandler.constructor` | src/lib/CommandHandler.ts:26-29 | a handler keeps its command's exclusivity and the shared flag |
| `CommandHandlers.CommandHandler.Begin` | src/lib/CommandHandler.ts:31-38 | the flag and the messages before the command runs are those of `StartStep` |
| `CommandHandlers.CommandHandler.Settle` | src/lib/CommandHandler.ts:41-51 | the flag and the message once the command settles are those of `FinishStep` |
| `CommandHandlers.CommandHandler.Invoke` | src/lib/CommandHandler.ts:31-52 | a run without interleaving: whether the command is called, the messages shown and the final flag, as `StartStep` then `FinishStep` say; the wrapper's own call resolves on every path where the command returns a promise, a failing command included, and a command that throws synchronously makes the call throw and leaves an exclusive command's flag set |
| `CommandHandlers.Started` | src/lib/CommandHandler.ts:31-52 | every running invocation was started in the trace, under the handler as written and under the corrected one |
| `CommandHandlers.StepKeepsExclusion` | src/lib/CommandHandler.ts:31-52 | one start that returns a promise, or one settle, keeps the flag set exactly while an exclusive command runs, and keeps at most one such command |
| `CommandHandlers.StepKeepsGuard` | src/lib/CommandHandler.ts:31-52 | every event, a command that throws included, keeps the flag set while an exclusive command runs and keeps at most one such command |
| `CommandHandlers.StepKeepsStuck` | src/lib/CommandHandler.ts:31-52 | once the flag is set with no exclusive command running, no event clears it |
| `CommandHandlers.ReplayKeepsExclusion` | src/lib/CommandHandler.ts:31-52 | over every well-formed interleaving in which each command returns a promise, two exclusive commands never run at once and the flag says whether one does |
| `CommandHandlers.ReplayKeepsGuard` | src/lib/CommandHandler.ts:31-52 | over every well-formed interleaving, throwing commands included, two exclusive commands never run at once and the flag is set while one runs |
| `CommandHandlers.StuckFlagStays` | src/lib/CommandHandler.ts:31-52 | a flag left set with no exclusive command running stays set after any further events, and every later exclusive invocation is turned away |
| `CommandHandlers.ThrowSticksFlag` | src/lib/CommandHandler.ts:38-41 | an exclusive command that throws as it starts leaves the flag set with nothing running, so the flag no longer says whether a command runs, and every exclusive invocation after it is turned away |
| `CommandHandlers.StepCorrectedKeepsExclusion` | src/lib/CommandHandler.ts:31-52 | a handler that clears the flag when the command throws keeps the flag set exactly while an exclusive command runs on every event |
| `CommandHandlers.ReplayCorrectedKeepsExclusion` | src/lib/CommandHandler.ts:31-52 | with that handler, over every well-formed interleaving, throwing commands included, two exclusive commands never run at once and the flag says whether one does |
| `CommandHandlers.BlockedInvocationChangesNothing` | src/lib/CommandHandler.ts:33-37 | an exclusive invocation while the flag is set changes no state |
| `CommandHandlers.NonExclusiveKeepsFlag` | src/lib/CommandHandler.ts:38-51 | starting, settling or throwing a non-exclusive command never touches the flag |
| `Deploy.Invoke` | src/lib/commands/Deploy.ts:18-32 | rejects a non-container with no effect; otherwise asks for stage and region; cancelled without calling the CLI; else exactly one `deploy` call with `cwd`, `region`, `stage`, settling as it does |
| `Deploy.DeployFlags` | src/lib/commands/Deploy.ts:25-30 | the `deploy` call passes `--region=` and `--stage=` with the answers and runs in the service directory (or the extension's directory when unset) |
| `Package.Invoke` | src/lib/commands/Package.ts:18-32 | as for deploy, with one `package` call |
| `Package.PackageFlags` | src/lib/commands/Package.ts:25-30 | the `package` call passes `--region=` and `--stage=` with the answers and runs in the service directory |
| `DeployFunction.Invoke` | src/lib/commands/DeployFunction.ts:18-32 | rejects a non-function with no effect; otherwise one stage box, then, unless cancelled, exactly one `deploy function` call settling as it does |
| `DeployFunction.DeployFunctionFlags` | src/lib/commands/DeployFunction.ts:25-30 | the call passes exactly `--function=<name>` and `--stage=`, with no region |
| `Logs.Invoke` | src/lib/commands/Logs.ts:18-32 | as for deploy function, with one `logs` call |
| `Logs.LogsFlags` | src/lib/commands/Logs.ts:25-30 | the call passes exactly `--function=<name>` and `--stage=` |
| `InvokeLocal.Invoke` | src/lib/commands/InvokeLocal.ts:18-49 | rejects a non-function; a stage box, then the event-file dialog; a dismissed or empty dialog resolves with no CLI call; else exactly one `invoke local` call with the first file relative to the service directory |
| `InvokeLocal.OnlyFirstFileUsed` | src/lib/commands/InvokeLocal.ts:39 | only the first selected file matters |
| `InvokeLocal.ThreeStringFlags` | src/lib/Serverless.ts:96-108 | `cwd` plus two options and `stage` format as three flags in that order |
| `InvokeLocal.InvokeLocalFlags` | src/lib/commands/InvokeLocal.ts:39-46 | the call passes `--function=`, `--path=` with the relative event file, and `--stage=` |
| `InvokeLocal.EventPathRelative` | src/lib/commands/InvokeLocal.ts:39 | an event file picked below the service directory is passed by its name below it |
| `Resolve.Invoke` | src/lib/commands/Resolve.ts:18-40 | rejects a non-container; after the prompts exactly one `print` call; its failure rejects with no document opened; its output opens and shows the untitled `resolved.yml` and is inserted at 0:0 |
| `Resolve.OutputInsertedOnlyOnSuccess` | src/lib/commands/Resolve.ts:30-37 | a failed `print` opens and inserts nothing; a successful one ends by inserting its output unchanged |
| `Resolve.ResolvedBesideService` | src/lib/commands/Resolve.ts:33 | the untitled document's path is `resolved.yml` in the service directory |
| `OpenHandler.HandlerBase` | src/lib/commands/OpenHandler.ts:23 | the expression matches exactly when the handler is one line and contains a `.` |
| `OpenHandler.HandlerBaseIsCapture` | src/lib/commands/OpenHandler.ts:23 | the result is exactly the greedy capture: the part before a `.` after which no `.` follows |
| `OpenHandler.HandlerBaseOfExport` | src/lib/commands/OpenHandler.ts:23 | `file.export` with an export name free of dots captures `file`, whatever dots `file` holds |
| `OpenHandler.Invoke` | src/lib/commands/OpenHandler.ts:13-40 | rejects a non-function, a missing or empty handler, an ill-formed handler and a missing file with their messages and no effect; else shows the `.js` file as a preview |
| `OpenHandler.OpensOnlyOnSuccess` | src/lib/commands/OpenHandler.ts:13-40 | a failure shows nothing; a success shows exactly one existing file, as a preview, named by the handler's capture |
| `OpenHandler.HandlerFileIsJs` | src/lib/commands/OpenHandler.ts:31 | the opened file's name ends in `.js` |
| `Paths.LastIndexOf` | src/lib/commands/OpenHandler.ts:23 | the position of the last occurrence of a character, or -1 when it does not occur |
| `Paths.DirnameJoin` | src/lib/serverlessOutline.ts:113 | the directory of a file joined below a directory is that directory |
| `Paths.RelativeJoin` | src/lib/commands/InvokeLocal.ts:39 | a file joined below a directory is found again relative to it |
| `Text.Split` | src/lib/serverlessOutline.ts:95 | `_.split` yields at least one part and no part contains the separator |
| `Text.JoinSplit` | src/lib/Serverless.ts:34 | joining the split parts with the separator gives the string back |
| `Text.SplitWord` | src/lib/Serverless.ts:34 | a word without the separator splits into itself |
| `Text.SplitFirst` | src/lib/Serverless.ts:34 | a word, the separator and a rest split into the word and the rest's parts |
| `Text.Compact` | src/lib/serverlessOutline.ts:95 | `_.compact` keeps only non-empty parts, each one of the inputs |
| `Text.Without` | src/lib/serverlessOutline.ts:95 | the string with a character removed contains it nowhere |
| `Text.Segments` | src/lib/serverlessOutline.ts:95 | the path segments are non-empty and contain no `/` |
| `Text.SegmentsCoverPath` | src/lib/serverlessOutline.ts:95 | the segments together spell the path with its slashes removed |
| `Text.SplitConcat` | src/lib/serverlessOutline.ts:95 | the split parts together spell the string without its separators |
| `Text.CompactConcat` | src/lib/serverlessOutline.ts:95 | dropping empty parts loses no character |
| `Text.ToLower` | src/lib/serverlessOutline.ts:54 | `_.toLower` keeps the length and lowers each character |
| `Text.NatToString` | src/lib/Serverless.ts:55 | decimal text of a natural: at least one digit and only digits |
| `Text.Digit` | src/lib/Serverless.ts:55 | a digit value becomes a digit character |
| `Text.NatToStringValue` | src/lib/Serverless.ts:55 | the decimal text reads back as the number |
| `Text.NatToStringInjective` | src/lib/Serverless.ts:55 | different numbers have different decimal texts |
| `Text.IntToString` | src/lib/Serverless.ts:55 | the text starts with `-` exactly for a negative code |
| `Text.IntToStringInjective` | src/lib/Serverless.ts:55 | different exit codes give different messages |

## Left out

- VS Code itself is not modelled: input boxes, the open dialog, text documents, output channels, error messages and the configuration are effects or inputs.
  - `channel.show()` is not recorded.
  - Each `Run` lists a command's prompts, CLI calls and editor effects, but not the wrapper's error message. `CommandHandlers` has that message.
- The child process is not run. Its `stdout`/`stderr`/`exit`/`error` events are an input sequence, and `spawn` is recorded as a `Spawn` value.
  - `data.toString()` on buffers is taken as already decoded text.
  - Errors are reduced to their message.
- The event loop's interleaving of promise callbacks is modelled by the trace of `CommandHandlers.Replay`, not inside each command. A command's own promise is an input (`invoked`, `printed`).
- The command modules' `Invoke` functions always receive a node. The throw an undefined `node` causes is modelled only in `CommandHandlers.CommandHandler.Invoke`, as `CommandRun.Throws`.
- Every VS Code call a command makes is assumed to succeed. A rejected `openTextDocument`, `showTextDocument` or `edit` would reject the command in the source (src/lib/commands/OpenHandler.ts:36-39, src/lib/commands/Resolve.ts:33-37). `OpenHandler.Invoke` and `Resolve.Invoke` resolve as soon as those effects are recorded.
- `CommandHandler.registerCommand` and `src/extension.ts` only wire commands to VS Code. They are not part of this model.
- `yaml.safeLoad` is not modelled. Its outcome is an input: an `Option<Service>`, with `None` when the load throws or the document is `null` or empty (reading `service.functions` then throws). Any other document without a `functions` object, a scalar or an array included, is `Some(Service([]))`: `forOwn` visits nothing and the two empty containers are still pushed.
  - The `service` and `warnings` fields are never read, so they are left out.
  - The `jsonc-parser` import is unused.
- A function declaration is modelled as `handler` plus `events`. An event is `null`, or an object whose `http` member is the object form `{ path, method }` or absent.
  - The string shorthand of an `http` event is left out.
  - Other truthy non-object values of `http` are left out.
- `forOwn` visits keys in the order of the `functions` sequence. JavaScript's ordering of integer-like keys first is not modelled.
- `existsSync` and `context.asAbsolutePath` are function parameters. `__dirname` is the parameter `moduleDir`.
- `Paths.Dirname`, `Paths.Join`, `Paths.Relative`: POSIX strings only.
  - There is no normalisation of `.`, `..` or repeated separators.
  - `Relative` returns a target that is not below the directory unchanged, rather than a `../` path.
  - `Relative` also returns the target unchanged when the directory is the filesystem root `/`: `Relative("/", "/a/b")` is `"/a/b"`, where `path.relative` gives `"a/b"`. That needs a `serverless.yml` at the root.
- `Text.ToLower` lowers ASCII letters only. `_.toLower`'s full Unicode case mapping is left out.
- `ServerlessCli.Cwd`: only string values of the `cwd` option are modelled. A `cwd` of another type would be passed to `spawn` as it is.
- `ServerlessCli.Options` has string, boolean and `undefined` values. Other value types, and the text a template literal makes of them, are left out.
- `console.log(handlerBase)` in `OpenHandler.invoke` is output only.
- `refresh(offset)` is modelled without its `offset` argument. The source never passes one, and the argument only chooses which node the change event names.
- `ServerlessOutline.ServerlessOutlineProvider.GetChildren` returns the children's values. That the returned array is the node's own `children` array, which the caller could alias, is not stated.
- `ServerlessCli.FormatOptionsFlags`: the `cwd` and `stage` clauses are stated for keys without `=`. A key such as `cwd=x` writes the flag `--cwd=x=...`, which starts with `--cwd=` although it is not the `cwd` option, so for such keys a flag's text does not name its key.

## Findings

| source | as written | input that shows it | evidently intended | confidence | as-written member | corrected member |
|---|---|---|---|---|---|---|
| src/lib/CommandHandler.ts:38-41 | the flag is set before the command's `invoke` is called and cleared only in the two settle handlers attached to the promise it returns; a command that throws before returning a promise skips both | an exclusive command invoked with an undefined `node` (deploy reads `node.kind` first), then any later deploy or package | the flag is cleared whenever the exclusive command ends, so that it is set exactly while one runs and later exclusive commands can run | not executed | `CommandHandlers.ThrowSticksFlag` | `CommandHandlers.ReplayCorrectedKeepsExclusion` |
