/** Opening a function's handler source (src/lib/commands/OpenHandler.ts):
    the handler string `file.export` names `file.js` below the service
    directory. The file system is not read: `fileExists` stands for
    `existsSync`. */
module OpenHandler {
  import opened Wrappers
  import opened ServerlessNodes
  import opened CommandBase
  import Paths

  /** The characters JavaScript's `.` does not match. */
  predicate IsLineTerminator(c: char)
  {
    c == '\n' || c == '\r' || c == '\U{2028}' || c == '\U{2029}'
  }

  predicate SingleLine(s: string)
  {
    forall i :: 0 <= i < |s| ==> !IsLineTerminator(s[i])
  }

  /** `_.get(node.data, "handler", null)`: only a function declaration has
      one. */
  function HandlerOf(data: Payload): Option<string>
  {
    match data
    case FuncData(decl) => decl.handler
    case _ => None
  }

  /** `/^(.*)\..*?$/.exec(handler)`, giving capture group 1 when the
      expression matches. */
  function HandlerBase(handler: string): (base: Option<string>)
    ensures base.Some? <==> SingleLine(handler) && '.' in handler
  {
    var k := Paths.LastIndexOf(handler, '.');
    if !SingleLine(handler) || k == -1 then None else Some(handler[..k])
  }

  /** What the expression captures, read off its parts: a single-line
      string splits into the capture, a `.`, and a tail, and the greedy
      `(.*)` leaves no `.` in the tail. */
  predicate RegexCapture(handler: string, base: string)
  {
    && SingleLine(handler)
    && |base| < |handler|
    && handler[..|base|] == base
    && handler[|base|] == '.'
    && '.' !in handler[|base| + 1..]
  }

  /** `HandlerBase` returns exactly the greedy capture. */
  lemma HandlerBaseIsCapture(handler: string, base: string)
    ensures HandlerBase(handler) == Some(base) <==> RegexCapture(handler, base)
  {
    var k := Paths.LastIndexOf(handler, '.');
    if RegexCapture(handler, base) {
      var n := |base|;
      assert handler[n] in handler;
      assert k == n;
    }
  }

  /** The handler `base.export` with an export name free of `.` gives
      `base`, whatever dots `base` holds. */
  lemma HandlerBaseOfExport(base: string, exportName: string)
    requires SingleLine(base + "." + exportName) && '.' !in exportName
    ensures HandlerBase(base + "." + exportName) == Some(base)
  {
    var h := base + "." + exportName;
    assert h[..|base|] == base && h[|base|] == '.' && h[|base| + 1..] == exportName;
    HandlerBaseIsCapture(h, base);
  }

  /** `path.join(root, handlerBase[1] + ".js")`. */
  function HandlerFile(documentRoot: string, base: string): string
  {
    Paths.Join(documentRoot, base + ".js")
  }

  /** `invoke(node)`. */
  function Invoke(node: NodeTree, fileExists: string -> bool): (r: Run)
    ensures node.kind != FUNCTION ==> r == Run([], Err("Cannot open handler for non function"))
    ensures node.kind == FUNCTION && (HandlerOf(node.data).None? || HandlerOf(node.data).value == "") ==>
              r == Run([], Err("Your function does not declare a valid handler"))
    ensures node.kind == FUNCTION && HandlerOf(node.data).Some? && HandlerOf(node.data).value != "" ==>
              var h := HandlerOf(node.data).value;
              && (HandlerBase(h).None? ==> r == Run([], Err("Your function handler is not formatted correctly")))
              && (HandlerBase(h).Some? && !fileExists(HandlerFile(node.documentRoot, HandlerBase(h).value)) ==>
                    r == Run([], Err("Could not load handler")))
              && (HandlerBase(h).Some? && fileExists(HandlerFile(node.documentRoot, HandlerBase(h).value)) ==>
                    r == Run([ShowFile(HandlerFile(node.documentRoot, HandlerBase(h).value), true)], Ok(Unit)))
  {
    if node.kind != FUNCTION then Run([], Err("Cannot open handler for non function"))
    else
      var handler := HandlerOf(node.data);
      if handler.None? || handler.value == "" then Run([], Err("Your function does not declare a valid handler"))
      else
        match HandlerBase(handler.value)
        case None => Run([], Err("Your function handler is not formatted correctly"))
        case Some(base) =>
          var file := HandlerFile(node.documentRoot, base);
          if !fileExists(file) then Run([], Err("Could not load handler"))
          else Run([ShowFile(file, true)], Ok(Unit))
  }

  /** Something is opened only on success, then exactly once and as a
      preview, and it is a `.js` file named by the handler's capture. */
  lemma OpensOnlyOnSuccess(node: NodeTree, fileExists: string -> bool)
    ensures var r := Invoke(node, fileExists);
            && (r.result.Err? ==> r.effects == [])
            && (r.result.Ok? ==> && |r.effects| == 1 && r.effects[0].ShowFile? && r.effects[0].preview
                                 && fileExists(r.effects[0].path)
                                 && RegexCapture(HandlerOf(node.data).value, HandlerBase(HandlerOf(node.data).value).value)
                                 && r.effects[0].path == HandlerFile(node.documentRoot, HandlerBase(HandlerOf(node.data).value).value))
  {
    var r := Invoke(node, fileExists);
    if r.result.Ok? {
      var h := HandlerOf(node.data).value;
      HandlerBaseIsCapture(h, HandlerBase(h).value);
    }
  }

  /** The opened file's name ends in `.js`. */
  lemma HandlerFileIsJs(documentRoot: string, base: string)
    ensures var f := HandlerFile(documentRoot, base); |f| >= 3 && f[|f| - 3..] == ".js"
  {
    var b := base + ".js";
    assert b[|b| - 3..] == ".js";
    var f := HandlerFile(documentRoot, base);
    if documentRoot != "" {
      assert f == documentRoot + "/" + b;
      assert f[|f| - 3..] == b[|b| - 3..];
    }
  }
}
