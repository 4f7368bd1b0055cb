/** The wrapper around the Serverless CLI (src/lib/Serverless.ts): how an
    options object becomes command-line flags, which process is started
    where, and what the output channel and the returned promise see while
    the child process reports its events. The child process itself is not
    run: its events are an input sequence. */
module ServerlessCli {
  import opened Wrappers
  import opened Text

  // ---------------------------------------------------------------------
  // Options and flags

  /** The value of one option: a string, a boolean, or `undefined`. */
  datatype OptValue = Str(s: string) | Bool(b: bool) | Undefined

  /** An options object as its own keys with their values, in key order. */
  type Options = seq<(string, OptValue)>

  predicate DistinctKeys(opts: Options)
  {
    forall i, j :: 0 <= i < j < |opts| ==> opts[i].0 != opts[j].0
  }

  function Keys(opts: Options): (ks: seq<string>)
    ensures |ks| == |opts| && forall i :: 0 <= i < |opts| ==> ks[i] == opts[i].0
  {
    seq(|opts|, i requires 0 <= i < |opts| => opts[i].0)
  }

  /** `_.get(options, key)`: the value under `key`, if the key is present. */
  function Lookup(opts: Options, key: string): (v: Option<OptValue>)
    ensures v.None? <==> key !in Keys(opts)
    ensures v.Some? ==> exists i :: 0 <= i < |opts| && opts[i] == (key, v.value)
  {
    if |opts| == 0 then None
    else if opts[0].0 == key then Some(opts[0].1)
    else Lookup(opts[1..], key)
  }

  /** The keys `formatOptions` consumes itself instead of passing them on. */
  const ProcessingOptions: seq<string> := ["cwd"]

  /** `_.omitBy(options, (value, key) => _.includes(ProcessingOptions, key))`. */
  function OmitProcessing(opts: Options): (r: Options)
    ensures forall i :: 0 <= i < |r| ==> r[i].0 !in ProcessingOptions
    ensures forall i :: 0 <= i < |r| ==> r[i] in opts
    ensures forall p :: p in opts && p.0 !in ProcessingOptions ==> p in r
  {
    if |opts| == 0 then []
    else (if opts[0].0 in ProcessingOptions then [] else [opts[0]]) + OmitProcessing(opts[1..])
  }

  /** `_.defaults({}, opts, { stage: "dev" })`: a `stage` whose value is
      `undefined` or missing becomes "dev"; a missing one goes last. */
  function DefaultStage(opts: Options): Options
  {
    if "stage" in Keys(opts) then
      seq(|opts|, i requires 0 <= i < |opts| =>
        if opts[i] == ("stage", Undefined) then ("stage", Str("dev")) else opts[i])
    else opts + [("stage", Str("dev"))]
  }

  /** The option object whose entries become flags. */
  function Effective(options: Options): Options
  {
    DefaultStage(OmitProcessing(options))
  }

  /** Template-literal text of a value. */
  function ValueText(v: OptValue): string
  {
    match v
    case Str(s) => s
    case Bool(b) => if b then "true" else "false"
    case Undefined => "undefined"
  }

  /** One flag: `--key` for the value `false`, `--key=value` otherwise. */
  function Flag(key: string, v: OptValue): string
  {
    if v == Bool(false) then "--" + key else "--" + key + "=" + ValueText(v)
  }

  /** A string value always follows the key after an `=`. */
  lemma FlagOfStr(key: string, s: string)
    ensures Flag(key, Str(s)) == "--" + key + "=" + s
  {
  }

  /** A flag is bare exactly when its value is `false`; every other value
      follows the key after an `=`. */
  lemma FlagBareIffFalse(key: string, v: OptValue)
    ensures Flag(key, v) == "--" + key <==> v == Bool(false)
    ensures v != Bool(false) ==> Flag(key, v)[2 + |key|..] == "=" + ValueText(v)
  {
    if v != Bool(false) {
      assert |Flag(key, v)| == 2 + |key| + 1 + |ValueText(v)|;
      assert Flag(key, v)[2 + |key|..] == "=" + ValueText(v);
    }
  }

  /** `formatOptions(options)`. */
  function FormatOptions(options: Options): (flags: seq<string>)
    ensures |flags| == |Effective(options)|
    ensures forall i :: 0 <= i < |flags| ==> flags[i] == Flag(Effective(options)[i].0, Effective(options)[i].1)
  {
    var eff := Effective(options);
    seq(|eff|, i requires 0 <= i < |eff| => Flag(eff[i].0, eff[i].1))
  }

  /** The options carry a non-empty string `cwd`. */
  predicate CwdGiven(options: Options)
  {
    Lookup(options, "cwd").Some? && Lookup(options, "cwd").value.Str? && Lookup(options, "cwd").value.s != ""
  }

  /** `_.get(options, "cwd") || __dirname`: a non-empty string `cwd`, else
      the directory of the module. */
  function Cwd(options: Options, moduleDir: string): (d: string)
    ensures CwdGiven(options) ==> d == Lookup(options, "cwd").value.s
    ensures !CwdGiven(options) ==> d == moduleDir
  {
    match Lookup(options, "cwd")
    case Some(Str(s)) => if s != "" then s else moduleDir
    case _ => moduleDir
  }

  const ServerlessBin := "node_modules/serverless/bin/serverless"

  /** The arguments given to `node`: the CLI script, the words of the
      command, then the flags. */
  function Argv(command: string, flags: seq<string>): seq<string>
  {
    [ServerlessBin] + Split(command, ' ') + flags
  }

  /** A call of `spawn(executable, args, { cwd })`. */
  datatype Spawn = Spawn(executable: string, args: seq<string>, cwd: string)

  /** The line written with `appendLine` before the process starts. */
  function Header(command: string, flags: seq<string>): string
  {
    "Running \"serverless " + command + " " + Join(flags, " ") + "\"" + "\n"
  }

  // ---------------------------------------------------------------------
  // The option properties

  lemma {:induction false} OmitProcessingKeepsOrder(opts: Options)
    ensures Keys(OmitProcessing(opts)) == KeysWithoutCwd(opts)
    decreases |opts|
  {
    if |opts| > 0 {
      OmitProcessingKeepsOrder(opts[1..]);
      var tail := OmitProcessing(opts[1..]);
      if opts[0].0 == "cwd" {
        assert OmitProcessing(opts) == tail;
      } else {
        assert opts[0].0 !in ProcessingOptions;
        assert OmitProcessing(opts) == [opts[0]] + tail;
        KeysCons(opts[0], tail);
      }
    }
  }

  lemma KeysCons(p: (string, OptValue), opts: Options)
    ensures Keys([p] + opts) == [p.0] + Keys(opts)
  {
    var a, b := Keys([p] + opts), [p.0] + Keys(opts);
    assert |a| == |b|;
    forall i | 0 <= i < |a| ensures a[i] == b[i] {
      if i > 0 {
        assert ([p] + opts)[i] == opts[i - 1];
      }
    }
  }

  /** The keys of `opts` with every "cwd" dropped, in order. */
  function KeysWithoutCwd(opts: Options): seq<string>
  {
    if |opts| == 0 then []
    else (if opts[0].0 == "cwd" then [] else [opts[0].0]) + KeysWithoutCwd(opts[1..])
  }

  lemma {:induction false} OmitProcessingDistinct(opts: Options)
    requires DistinctKeys(opts)
    ensures DistinctKeys(OmitProcessing(opts))
    decreases |opts|
  {
    if |opts| > 0 {
      assert DistinctKeys(opts[1..]) by {
        forall i, j | 0 <= i < j < |opts[1..]| ensures opts[1..][i].0 != opts[1..][j].0 {
          assert opts[1..][i] == opts[i + 1] && opts[1..][j] == opts[j + 1];
        }
      }
      OmitProcessingDistinct(opts[1..]);
      var rest := OmitProcessing(opts[1..]);
      forall i | 0 <= i < |rest| ensures rest[i].0 != opts[0].0 {
        assert rest[i] in opts[1..];
      }
    }
  }

  /** No flag comes from the `cwd` option: every flag's key is one of the
      caller's other keys, or the defaulted "stage". */
  lemma NoCwdFlag(options: Options)
    ensures forall i :: 0 <= i < |Effective(options)| ==> Effective(options)[i].0 != "cwd"
  {
  }

  /** The flags follow the caller's key order, `cwd` removed; a stage the
      caller did not give comes last. */
  lemma FlagOrder(options: Options)
    ensures Keys(Effective(options)) == KeysWithoutCwd(options)
              + (if "stage" in KeysWithoutCwd(options) then [] else ["stage"])
  {
    var kept := OmitProcessing(options);
    OmitProcessingKeepsOrder(options);
    if "stage" !in Keys(kept) {
      assert Keys(kept + [("stage", Str("dev"))]) == Keys(kept) + ["stage"];
    } else {
      assert Keys(DefaultStage(kept)) == Keys(kept);
    }
  }

  /** Exactly one entry of the effective options is "stage"; it carries the
      caller's stage when one is given and not `undefined`, "dev" otherwise. */
  lemma ExactlyOneStage(options: Options)
    requires DistinctKeys(options)
    ensures exists k :: 0 <= k < |Effective(options)| && Effective(options)[k].0 == "stage"
              && (forall j :: 0 <= j < |Effective(options)| && j != k ==> Effective(options)[j].0 != "stage")
              && Effective(options)[k].1 == StageValue(options)
  {
    var kept := OmitProcessing(options);
    OmitProcessingDistinct(options);
    LookupOmit(options, "stage");
    assert StageValue(kept) == StageValue(options);
    var k := DefaultStageOnce(kept);
    var eff := Effective(options);
    assert eff == DefaultStage(kept);
    assert 0 <= k < |eff| && eff[k].0 == "stage" && eff[k].1 == StageValue(options);
    assert forall j :: 0 <= j < |eff| && j != k ==> eff[j].0 != "stage";
  }

  /** `flag` is a flag of `key`: bare `--key`, or `--key=` and a value. */
  predicate FlagFor(flag: string, key: string)
  {
    flag == "--" + key || "--" + key + "=" <= flag
  }

  /** No key contains `=`, so a flag's text names its key unambiguously. */
  predicate PlainKeys(options: Options)
  {
    forall i :: 0 <= i < |options| ==> '=' !in options[i].0
  }

  lemma FlagIsFor(key: string, v: OptValue)
    ensures FlagFor(Flag(key, v), key)
  {
    if v != Bool(false) {
      var p := "--" + key + "=";
      assert Flag(key, v) == p + ValueText(v);
      assert Flag(key, v)[..|p|] == p;
    }
  }

  /** Two strings that differ at a position both have are not equal, and
      neither is a prefix of the other. */
  lemma DiffersAt(a: string, b: string, n: nat)
    requires n < |a| && n < |b| && a[n] != b[n]
    ensures a != b && !(a <= b)
  {
  }

  /** Between keys without `=`, the flag of one key is a flag of another
      only when the keys are the same. */
  lemma FlagForIffSameKey(key: string, other: string, v: OptValue)
    requires '=' !in key && '=' !in other
    ensures FlagFor(Flag(key, v), other) <==> key == other
  {
    FlagIsFor(key, v);
    if key != other {
      var f := Flag(key, v);
      var bare := v == Bool(false);
      var q := "--" + other;
      var p := q + "=";
      assert bare ==> f == "--" + key;
      assert !bare ==> f == "--" + key + "=" + ValueText(v);
      assert forall n :: 0 <= n < |key| ==> f[2 + n] == key[n];
      assert forall n :: 0 <= n < |other| ==> q[2 + n] == other[n] && p[2 + n] == other[n];
      assert p[2 + |other|] == '=';
      if |key| == |other| {
        var n :| 0 <= n < |key| && key[n] != other[n];
        DiffersAt(f, q, 2 + n);
        DiffersAt(p, f, 2 + n);
      } else if |key| > |other| {
        assert f[2 + |other|] == key[|other|] != '=';
        DiffersAt(p, f, 2 + |other|);
      } else if bare {
        assert |f| < |q| < |p|;
      } else {
        assert f[2 + |key|] == '=' != other[|key|];
        DiffersAt(f, q, 2 + |key|);
        DiffersAt(p, f, 2 + |key|);
      }
    }
  }

  /** With plain keys, every effective key is plain. */
  lemma PlainEffectiveKeys(options: Options)
    requires PlainKeys(options)
    ensures forall i :: 0 <= i < |Effective(options)| ==> '=' !in Effective(options)[i].0
  {
    var kept := OmitProcessing(options);
    var eff := Effective(options);
    assert '=' !in "stage";
    forall i | 0 <= i < |eff| ensures '=' !in eff[i].0 {
      if eff[i].0 != "stage" {
        assert eff[i] in kept;
        var j :| 0 <= j < |options| && options[j] == eff[i];
      }
    }
  }

  /** The first flags are those of the caller's keys other than `cwd`, in
      order; `--stage=dev` follows when the caller gave no stage. */
  lemma FlagsFollowKeys(options: Options)
    ensures |FormatOptions(options)| == |KeysWithoutCwd(options)| + (if "stage" in KeysWithoutCwd(options) then 0 else 1)
    ensures forall i :: 0 <= i < |KeysWithoutCwd(options)| ==>
              FlagFor(FormatOptions(options)[i], KeysWithoutCwd(options)[i])
    ensures "stage" !in KeysWithoutCwd(options) ==>
              FormatOptions(options)[|FormatOptions(options)| - 1] == "--stage=dev"
  {
    var eff := Effective(options);
    var flags := FormatOptions(options);
    var keys := KeysWithoutCwd(options);
    FlagOrder(options);
    assert |flags| == |eff| == |Keys(eff)|;
    forall i | 0 <= i < |keys| ensures FlagFor(flags[i], keys[i]) {
      assert eff[i].0 == Keys(eff)[i] == keys[i];
      FlagIsFor(eff[i].0, eff[i].1);
    }
    if "stage" !in keys {
      var kept := OmitProcessing(options);
      OmitProcessingKeepsOrder(options);
      assert eff == kept + [("stage", Str("dev"))];
      FlagOfStr("stage", "dev");
    }
  }

  /** With plain keys no flag is a `cwd` flag. */
  lemma NoCwdFlagText(options: Options)
    requires PlainKeys(options)
    ensures forall i :: 0 <= i < |FormatOptions(options)| ==> !FlagFor(FormatOptions(options)[i], "cwd")
  {
    var eff := Effective(options);
    PlainEffectiveKeys(options);
    NoCwdFlag(options);
    forall i | 0 <= i < |eff| ensures !FlagFor(FormatOptions(options)[i], "cwd") {
      FlagForIffSameKey(eff[i].0, "cwd", eff[i].1);
    }
  }

  /** With plain, distinct keys exactly one flag is a `stage` flag. */
  lemma OneStageFlag(options: Options)
    requires PlainKeys(options) && DistinctKeys(options)
    ensures exists k :: 0 <= k < |FormatOptions(options)|
              && FormatOptions(options)[k] == Flag("stage", StageValue(options))
              && forall j :: 0 <= j < |FormatOptions(options)| && j != k ==> !FlagFor(FormatOptions(options)[j], "stage")
  {
    var eff := Effective(options);
    var flags := FormatOptions(options);
    PlainEffectiveKeys(options);
    ExactlyOneStage(options);
    var k :| 0 <= k < |eff| && eff[k].0 == "stage"
             && (forall j :: 0 <= j < |eff| && j != k ==> eff[j].0 != "stage")
             && eff[k].1 == StageValue(options);
    forall j | 0 <= j < |flags| && j != k ensures !FlagFor(flags[j], "stage") {
      FlagForIffSameKey(eff[j].0, "stage", eff[j].1);
    }
    assert flags[k] == Flag("stage", StageValue(options));
  }

  /** What `formatOptions` returns, flag by flag: one flag per caller key
      other than `cwd`, in the caller's order, followed by `--stage=dev`
      when the caller gave no stage; no flag is a `cwd` flag; and when keys
      are distinct exactly one flag is a `stage` flag, carrying the
      caller's defined stage or "dev". The last two need keys without `=`,
      since the key "cwd=x" gives the flag "--cwd=x=..." by itself. */
  lemma FormatOptionsFlags(options: Options)
    ensures |FormatOptions(options)| == |KeysWithoutCwd(options)| + (if "stage" in KeysWithoutCwd(options) then 0 else 1)
    ensures forall i :: 0 <= i < |KeysWithoutCwd(options)| ==>
              FlagFor(FormatOptions(options)[i], KeysWithoutCwd(options)[i])
    ensures "stage" !in KeysWithoutCwd(options) ==>
              FormatOptions(options)[|FormatOptions(options)| - 1] == "--stage=dev"
    ensures PlainKeys(options) ==>
              forall i :: 0 <= i < |FormatOptions(options)| ==> !FlagFor(FormatOptions(options)[i], "cwd")
    ensures PlainKeys(options) && DistinctKeys(options) ==>
              exists k :: 0 <= k < |FormatOptions(options)|
                && FormatOptions(options)[k] == Flag("stage", StageValue(options))
                && forall j :: 0 <= j < |FormatOptions(options)| && j != k ==> !FlagFor(FormatOptions(options)[j], "stage")
  {
    FlagsFollowKeys(options);
    if PlainKeys(options) {
      NoCwdFlagText(options);
      if DistinctKeys(options) {
        OneStageFlag(options);
      }
    }
  }

  /** `DefaultStage` leaves exactly one "stage" entry in options with
      distinct keys, holding the given stage or "dev". */
  lemma DefaultStageOnce(kept: Options) returns (k: nat)
    requires DistinctKeys(kept)
    ensures k < |DefaultStage(kept)| && DefaultStage(kept)[k].0 == "stage"
    ensures forall j :: 0 <= j < |DefaultStage(kept)| && j != k ==> DefaultStage(kept)[j].0 != "stage"
    ensures DefaultStage(kept)[k].1 == StageValue(kept)
  {
    var d := DefaultStage(kept);
    if "stage" in Keys(kept) {
      k :| 0 <= k < |kept| && Keys(kept)[k] == "stage";
      LookupDistinct(kept, k);
      assert d[k].0 == "stage" && d[k].1 == StageValue(kept);
      assert forall j :: 0 <= j < |d| && j != k ==> d[j].0 != "stage" by {
        forall j | 0 <= j < |d| && j != k ensures d[j].0 != "stage" {
          assert d[j].0 == kept[j].0;
        }
      }
    } else {
      k := |kept|;
      assert d[k] == ("stage", Str("dev"));
      assert forall j :: 0 <= j < |d| && j != k ==> d[j].0 != "stage" by {
        forall j | 0 <= j < |d| && j != k ensures d[j].0 != "stage" {
          assert d[j] == kept[j] && Keys(kept)[j] == kept[j].0;
        }
      }
    }
  }

  /** Options without `cwd` pass through `omitBy` whole. */
  lemma {:induction false} NoProcessingKept(opts: Options)
    requires forall i :: 0 <= i < |opts| ==> opts[i].0 != "cwd"
    ensures OmitProcessing(opts) == opts
    decreases |opts|
  {
    if |opts| > 0 {
      var tail := opts[1..];
      forall i | 0 <= i < |tail| ensures tail[i].0 != "cwd" {
        assert tail[i] == opts[i + 1];
      }
      NoProcessingKept(tail);
      assert opts[0].0 !in ProcessingOptions;
      assert OmitProcessing(opts) == [opts[0]] + tail;
      assert [opts[0]] + tail == opts;
    }
  }

  /** A stage that is given and not `undefined` is kept as it is. */
  lemma DefaultStageKept(opts: Options)
    requires "stage" in Keys(opts)
    requires forall i :: 0 <= i < |opts| ==> opts[i].1 != Undefined
    ensures DefaultStage(opts) == opts
  {
    var d := DefaultStage(opts);
    forall i | 0 <= i < |opts| ensures d[i] == opts[i] {
      assert opts[i] != ("stage", Undefined);
    }
  }

  /** A leading `cwd` is consumed, and the rest, which already carries a
      stage, passes through as it is. */
  lemma LeadingCwdEffective(cwd: string, rest: Options)
    requires forall i :: 0 <= i < |rest| ==> rest[i].1.Str? && rest[i].0 != "cwd"
    requires "stage" in Keys(rest)
    ensures Effective([("cwd", Str(cwd))] + rest) == rest
  {
    var opts := [("cwd", Str(cwd))] + rest;
    NoProcessingKept(rest);
    assert opts[1..] == rest && opts[0].0 in ProcessingOptions;
    assert OmitProcessing(opts) == rest;
    DefaultStageKept(rest);
  }

  /** A leading `cwd` followed by string-valued options that already carry
      a stage: every other entry becomes `--key=value`, in order. */
  lemma StringFlags(cwd: string, rest: Options)
    requires forall i :: 0 <= i < |rest| ==> rest[i].1.Str? && rest[i].0 != "cwd"
    requires "stage" in Keys(rest)
    ensures |FormatOptions([("cwd", Str(cwd))] + rest)| == |rest|
    ensures forall i :: 0 <= i < |rest| ==> FormatOptions([("cwd", Str(cwd))] + rest)[i] == "--" + rest[i].0 + "=" + rest[i].1.s
  {
    var opts := [("cwd", Str(cwd))] + rest;
    LeadingCwdEffective(cwd, rest);
    forall i | 0 <= i < |rest| ensures FormatOptions(opts)[i] == "--" + rest[i].0 + "=" + rest[i].1.s {
      StrFlagAt(opts, i);
    }
  }

  /** The `i`-th flag of options whose `i`-th effective value is a string. */
  lemma StrFlagAt(options: Options, i: nat)
    requires i < |Effective(options)| && Effective(options)[i].1.Str?
    ensures FormatOptions(options)[i] == "--" + Effective(options)[i].0 + "=" + Effective(options)[i].1.s
  {
    var e := Effective(options)[i];
    assert FormatOptions(options)[i] == Flag(e.0, e.1);
    FlagOfStr(e.0, e.1.s);
  }

  /** Dropping `cwd` does not change what any other key maps to. */
  lemma {:induction false} LookupOmit(opts: Options, key: string)
    requires key !in ProcessingOptions
    ensures Lookup(OmitProcessing(opts), key) == Lookup(opts, key)
    decreases |opts|
  {
    if |opts| > 0 {
      LookupOmit(opts[1..], key);
      var rest := OmitProcessing(opts[1..]);
      if opts[0].0 in ProcessingOptions {
        assert OmitProcessing(opts) == rest;
      } else {
        var r := [opts[0]] + rest;
        assert OmitProcessing(opts) == r;
        assert r[0] == opts[0] && r[1..] == rest;
      }
    }
  }

  /** The stage the effective options carry. */
  function StageValue(options: Options): OptValue
  {
    match Lookup(options, "stage")
    case Some(v) => if v == Undefined then Str("dev") else v
    case None => Str("dev")
  }

  lemma {:induction false} LookupDistinct(opts: Options, i: nat)
    requires DistinctKeys(opts) && i < |opts|
    ensures Lookup(opts, opts[i].0) == Some(opts[i].1)
    decreases i
  {
    if i > 0 {
      assert DistinctKeys(opts[1..]) by {
        forall a, b | 0 <= a < b < |opts[1..]| ensures opts[1..][a].0 != opts[1..][b].0 {
          assert opts[1..][a] == opts[a + 1] && opts[1..][b] == opts[b + 1];
        }
      }
      LookupDistinct(opts[1..], i - 1);
      assert opts[1..][i - 1] == opts[i];
    }
  }

  /** The words of the command in the argv join back to the command. */
  lemma ArgvCarriesCommand(command: string, flags: seq<string>)
    ensures var a := Argv(command, flags); var n := |Split(command, ' ')|;
            && a[0] == ServerlessBin && Join(a[1..1 + n], [' ']) == command && a[1 + n..] == flags
  {
    var a := Argv(command, flags);
    var n := |Split(command, ' ')|;
    assert a[1..1 + n] == Split(command, ' ');
    assert a[1 + n..] == flags;
    JoinSplit(command, ' ');
  }

  /** A command of two words splits into those words. */
  lemma TwoWordSplit(w1: string, w2: string)
    requires ' ' !in w1 && ' ' !in w2
    ensures Split(w1 + " " + w2, ' ') == [w1, w2]
  {
    SplitFirst(w1, ' ', w2);
    SplitWord(w2, ' ');
    assert w1 + " " + w2 == w1 + [' '] + w2;
  }

  /** Without options the only flag is the default stage. */
  lemma DefaultFlags()
    ensures FormatOptions([]) == ["--stage=dev"]
  {
    assert Effective([]) == [("stage", Str("dev"))];
    assert Flag("stage", Str("dev")) == "--stage=dev";
  }

  /** `Serverless.invoke(command)` for a two-word command without options:
      argv is the binary, both words, and `--stage=dev`. */
  lemma DefaultInvocationArgv(w1: string, w2: string)
    requires ' ' !in w1 && ' ' !in w2
    ensures Argv(w1 + " " + w2, FormatOptions([])) == [ServerlessBin, w1, w2, "--stage=dev"]
  {
    TwoWordSplit(w1, w2);
    DefaultFlags();
  }

  // ---------------------------------------------------------------------
  // The child process

  /** What the child process reports: data on stdout or stderr, its `exit`
      (with the code, `None` for `null`), or a spawn `error`. */
  datatype ProcEvent = StdOut(chunk: string) | StdErr(chunk: string) | Exit(code: Option<int>) | SpawnError(message: string)

  predicate Settles(e: ProcEvent)
  {
    e.Exit? || e.SpawnError?
  }

  /** The first event that settles the promise. */
  function FirstSettle(events: seq<ProcEvent>): (r: Option<nat>)
    ensures r.Some? ==> r.value < |events| && Settles(events[r.value])
                        && forall j :: 0 <= j < r.value ==> !Settles(events[j])
    ensures r.None? ==> forall j :: 0 <= j < |events| ==> !Settles(events[j])
  {
    if |events| == 0 then None
    else match FirstSettle(events[..|events| - 1])
      case Some(k) => Some(k)
      case None => if Settles(events[|events| - 1]) then Some(|events| - 1) else None
  }

  /** Everything written on stdout, in order. */
  function StdOutText(events: seq<ProcEvent>): string
  {
    if |events| == 0 then ""
    else StdOutText(events[..|events| - 1]) + StdOutChunk(events[|events| - 1])
  }

  /** The text one event adds to the channel of `invokeCommand`. */
  function StreamAppend(e: ProcEvent): string
  {
    if e.StdOut? || e.StdErr? then e.chunk else ""
  }

  /** Everything written on stdout or stderr, in order. */
  function OutputText(events: seq<ProcEvent>): string
  {
    if |events| == 0 then ""
    else OutputText(events[..|events| - 1]) + StreamAppend(events[|events| - 1])
  }

  function ExitMessage(code: Option<int>): string
  {
    "Command exited with " + (if code.Some? then IntToString(code.value) else "null")
  }

  /** A promise settles once: later `resolve`/`reject` calls change nothing. */
  function Settle<T>(state: Option<Result<T>>, r: Result<T>): (s: Option<Result<T>>)
    ensures state.Some? ==> s == state
    ensures state.None? ==> s == Some(r)
  {
    if state.Some? then state else Some(r)
  }

  /** How the promise of `invokeCommandWithResult` ends: resolved with all
      stdout written before a zero exit, rejected on a non-zero or `null`
      exit or a spawn error, pending while nothing settled it. */
  function CaptureOutcome(events: seq<ProcEvent>): Option<Result<string>>
  {
    match FirstSettle(events)
    case None => None
    case Some(k) =>
      match events[k]
      case SpawnError(m) => Some(Err(m))
      case Exit(code) => if code == Some(0) then Some(Ok(StdOutText(events[..k]))) else Some(Err(ExitMessage(code)))
  }

  /** The stdout text one event adds. */
  function StdOutChunk(e: ProcEvent): string
  {
    if e.StdOut? then e.chunk else ""
  }

  /** What one event makes `invokeCommandWithResult` append to its channel,
      given the stdout captured so far: stderr data, and the captured text
      at a non-zero (or `null`) exit. */
  function CaptureAppend(e: ProcEvent, captured: string): string
  {
    match e
    case StdErr(c) => c
    case Exit(code) => if code != Some(0) then captured else ""
    case _ => ""
  }

  /** How one event would settle the captured promise, if nothing settled
      it before. */
  function CaptureSettle(e: ProcEvent, captured: string): Option<Result<string>>
  {
    match e
    case SpawnError(m) => Some(Err(m))
    case Exit(code) => if code == Some(0) then Some(Ok(captured)) else Some(Err(ExitMessage(code)))
    case _ => None
  }

  /** What `invokeCommandWithResult` writes to its channel after the
      header, event by event. */
  function CaptureChannel(events: seq<ProcEvent>): string
  {
    if |events| == 0 then ""
    else
      var n := |events| - 1;
      CaptureChannel(events[..n]) + CaptureAppend(events[n], StdOutText(events[..n]))
  }

  /** How one event would settle the promise of `invokeCommand`. */
  function StreamSettle(e: ProcEvent): Option<Result<Unit>>
  {
    match e
    case SpawnError(m) => Some(Err(m))
    case Exit(_) => Some(Ok(Unit))
    case _ => None
  }

  /** How the promise of `invokeCommand` ends: resolved at the first exit,
      whatever the code; rejected only by a spawn error. */
  function StreamOutcome(events: seq<ProcEvent>): Option<Result<Unit>>
  {
    match FirstSettle(events)
    case None => None
    case Some(k) => if events[k].SpawnError? then Some(Err(events[k].message)) else Some(Ok(Unit))
  }

  lemma PrefixSettle(events: seq<ProcEvent>, i: nat)
    requires i < |events|
    ensures FirstSettle(events[..i + 1]) ==
              match FirstSettle(events[..i])
              case Some(k) => Some(k)
              case None => if Settles(events[i]) then Some(i) else None
  {
    assert events[..i + 1][..i] == events[..i];
  }

  lemma CaptureChannelStep(events: seq<ProcEvent>, i: nat)
    requires i < |events|
    ensures CaptureChannel(events[..i + 1]) == CaptureChannel(events[..i]) + CaptureAppend(events[i], StdOutText(events[..i]))
  {
    assert events[..i + 1][..i] == events[..i];
  }

  lemma CaptureStep(events: seq<ProcEvent>, i: nat)
    requires i < |events|
    ensures StdOutText(events[..i + 1]) == StdOutText(events[..i]) + StdOutChunk(events[i])
    ensures CaptureOutcome(events[..i + 1]) ==
              if CaptureOutcome(events[..i]).Some? then CaptureOutcome(events[..i])
              else CaptureSettle(events[i], StdOutText(events[..i]))
  {
    assert events[..i + 1][..i] == events[..i];
    PrefixSettle(events, i);
    match FirstSettle(events[..i]) {
      case Some(k) =>
        assert events[..i + 1][k] == events[..i][k];
        assert events[..i + 1][..k] == events[..i][..k];
      case None =>
    }
  }

  lemma StreamStep(events: seq<ProcEvent>, i: nat)
    requires i < |events|
    ensures OutputText(events[..i + 1]) == OutputText(events[..i]) + StreamAppend(events[i])
    ensures StreamOutcome(events[..i + 1]) ==
              if StreamOutcome(events[..i]).Some? then StreamOutcome(events[..i])
              else StreamSettle(events[i])
  {
    assert events[..i + 1][..i] == events[..i];
    PrefixSettle(events, i);
    match FirstSettle(events[..i]) {
      case Some(k) => assert events[..i + 1][k] == events[..i][k];
      case None =>
    }
  }

  /** Capture mode never shows stdout on the channel unless the process
      exits with a non-zero (or `null`) code. */
  lemma {:induction false} CaptureHidesStdout(events: seq<ProcEvent>)
    requires forall k :: 0 <= k < |events| && events[k].Exit? ==> events[k].code == Some(0)
    ensures CaptureChannel(events) == StdErrText(events)
    decreases |events|
  {
    if |events| > 0 {
      CaptureHidesStdout(events[..|events| - 1]);
    }
  }

  /** Everything written on stderr, in order. */
  function StdErrText(events: seq<ProcEvent>): string
  {
    if |events| == 0 then ""
    else StdErrText(events[..|events| - 1]) + (if events[|events| - 1].StdErr? then events[|events| - 1].chunk else "")
  }

  /** A zero exit before any other settling event resolves the captured
      promise with the stdout written before it. */
  lemma CaptureResolvesWithStdout(events: seq<ProcEvent>, k: nat)
    requires k < |events| && events[k] == Exit(Some(0))
    requires forall j :: 0 <= j < k ==> !Settles(events[j])
    ensures CaptureOutcome(events) == Some(Ok(StdOutText(events[..k])))
  {
    assert FirstSettle(events) == Some(k);
  }

  /** Streaming mode resolves on every exit code and rejects only on a
      spawn error. */
  lemma StreamResolvesOnAnyExit(events: seq<ProcEvent>, k: nat)
    requires k < |events| && Settles(events[k])
    requires forall j :: 0 <= j < k ==> !Settles(events[j])
    ensures StreamOutcome(events) == if events[k].Exit? then Some(Ok(Unit)) else Some(Err(events[k].message))
  {
    assert FirstSettle(events) == Some(k);
  }

  // ---------------------------------------------------------------------
  // The wrapper object

  class Serverless {
    const cwd: string
    /** The name the current output channel was created with. */
    var channelName: string
    /** The text appended to the current output channel. */
    var channel: string

    /** The private constructor. */
    constructor (cwd: string)
      ensures this.cwd == cwd && channelName == "" && channel == ""
    {
      this.cwd := cwd;
      channelName := "";
      channel := "";
    }

    /** The handlers `invokeCommandWithResult` registers, applied to one
        event: `result` is the stdout captured so far. */
    method OnCaptureEvent(e: ProcEvent, result: string, outcome: Option<Result<string>>)
      returns (result': string, outcome': Option<Result<string>>)
      modifies this
      ensures channelName == old(channelName) && channel == old(channel) + CaptureAppend(e, result)
      ensures result' == result + StdOutChunk(e)
      ensures outcome' == if outcome.Some? then outcome else CaptureSettle(e, result)
    {
      result', outcome' := result, outcome;
      match e {
        case SpawnError(m) =>
          outcome' := Settle(outcome', Err(m));
        case StdOut(data) =>
          result' := result' + data;
        case StdErr(data) =>
          channel := channel + data;
        case Exit(code) =>
          if code != Some(0) {
            channel := channel + result';
            outcome' := Settle(outcome', Err(ExitMessage(code)));
          }
          outcome' := Settle(outcome', Ok(result'));
      }
    }

    /** `invokeCommandWithResult(command, options)`, with the child
        process's events given in order. */
    method InvokeCommandWithResult(command: string, options: seq<string>, events: seq<ProcEvent>)
      returns (spawn: Spawn, outcome: Option<Result<string>>)
      modifies this
      ensures spawn == Spawn("node", Argv(command, options), cwd)
      ensures channelName == "Serverless" && channel == Header(command, options) + CaptureChannel(events)
      ensures outcome == CaptureOutcome(events)
    {
      channelName, channel := "Serverless", "";
      channel := channel + Header(command, options);
      spawn := Spawn("node", Argv(command, options), cwd);
      outcome := CaptureEvents(events);
    }

    /** The capture handlers applied to every event in turn, starting from
        an empty `result` and an unsettled promise. */
    method CaptureEvents(events: seq<ProcEvent>) returns (outcome: Option<Result<string>>)
      modifies this
      ensures channelName == old(channelName) && channel == old(channel) + CaptureChannel(events)
      ensures outcome == CaptureOutcome(events)
    {
      var result := "";
      outcome := None;
      ghost var start := channel;
      var i := 0;
      while i < |events|
        invariant 0 <= i <= |events|
        invariant channel == start + CaptureChannel(events[..i])
        invariant result == StdOutText(events[..i]) && outcome == CaptureOutcome(events[..i])
        invariant channelName == old(channelName)
      {
        ghost var before := CaptureChannel(events[..i]);
        ghost var extra := CaptureAppend(events[i], result);
        CaptureChannelStep(events, i);
        result, outcome := CaptureNext(events, i, result, outcome);
        assert start + before + extra == start + (before + extra);
        i := i + 1;
      }
      assert events[..i] == events;
    }

    /** One event through the capture handlers, as the `i`-th of `events`. */
    method CaptureNext(events: seq<ProcEvent>, i: nat, result: string, outcome: Option<Result<string>>)
      returns (result': string, outcome': Option<Result<string>>)
      requires i < |events|
      requires result == StdOutText(events[..i]) && outcome == CaptureOutcome(events[..i])
      modifies this
      ensures channelName == old(channelName) && channel == old(channel) + CaptureAppend(events[i], result)
      ensures result' == StdOutText(events[..i + 1]) && outcome' == CaptureOutcome(events[..i + 1])
    {
      CaptureStep(events, i);
      result', outcome' := OnCaptureEvent(events[i], result, outcome);
    }

    /** The handlers `invokeCommand` registers, applied to one event. */
    method OnStreamEvent(e: ProcEvent, outcome: Option<Result<Unit>>) returns (outcome': Option<Result<Unit>>)
      modifies this
      ensures channelName == old(channelName) && channel == old(channel) + StreamAppend(e)
      ensures outcome' == if outcome.Some? then outcome else StreamSettle(e)
    {
      outcome' := outcome;
      match e {
        case SpawnError(m) =>
          outcome' := Settle(outcome', Err(m));
        case StdOut(data) =>
          channel := channel + data;
        case StdErr(data) =>
          channel := channel + data;
        case Exit(_) =>
          outcome' := Settle(outcome', Ok(Unit));
      }
    }

    /** `invokeCommand(command, options)`: both streams go to a channel
        named after the command. */
    method InvokeCommand(command: string, options: seq<string>, events: seq<ProcEvent>)
      returns (spawn: Spawn, outcome: Option<Result<Unit>>)
      modifies this
      ensures spawn == Spawn("node", Argv(command, options), cwd)
      ensures channelName == command && channel == Header(command, options) + OutputText(events)
      ensures outcome == StreamOutcome(events)
    {
      channelName, channel := command, "";
      channel := channel + Header(command, options);
      spawn := Spawn("node", Argv(command, options), cwd);
      outcome := StreamEvents(events);
    }

    /** The streaming handlers applied to every event in turn. */
    method StreamEvents(events: seq<ProcEvent>) returns (outcome: Option<Result<Unit>>)
      modifies this
      ensures channelName == old(channelName) && channel == old(channel) + OutputText(events)
      ensures outcome == StreamOutcome(events)
    {
      outcome := None;
      var i := 0;
      while i < |events|
        invariant 0 <= i <= |events|
        invariant channel == old(channel) + OutputText(events[..i])
        invariant outcome == StreamOutcome(events[..i])
        invariant channelName == old(channelName)
      {
        StreamStep(events, i);
        outcome := OnStreamEvent(events[i], outcome);
        i := i + 1;
      }
      assert events[..i] == events;
    }

    /** `Serverless.invoke(command, options)`. */
    static method Invoke(command: string, options: Options, moduleDir: string, events: seq<ProcEvent>)
      returns (serverless: Serverless, spawn: Spawn, outcome: Option<Result<Unit>>)
      ensures fresh(serverless) && serverless.cwd == Cwd(options, moduleDir)
      ensures spawn == Spawn("node", Argv(command, FormatOptions(options)), Cwd(options, moduleDir))
      ensures serverless.channelName == command
      ensures serverless.channel == Header(command, FormatOptions(options)) + OutputText(events)
      ensures outcome == StreamOutcome(events)
    {
      var commandOptions := FormatOptions(options);
      var cwd := Cwd(options, moduleDir);
      serverless := new Serverless(cwd);
      spawn, outcome := serverless.InvokeCommand(command, commandOptions, events);
    }

    /** `Serverless.invokeWithResult(command, options)`. */
    static method InvokeWithResult(command: string, options: Options, moduleDir: string, events: seq<ProcEvent>)
      returns (serverless: Serverless, spawn: Spawn, outcome: Option<Result<string>>)
      ensures fresh(serverless) && serverless.cwd == Cwd(options, moduleDir)
      ensures spawn == Spawn("node", Argv(command, FormatOptions(options)), Cwd(options, moduleDir))
      ensures serverless.channelName == "Serverless"
      ensures serverless.channel == Header(command, FormatOptions(options)) + CaptureChannel(events)
      ensures outcome == CaptureOutcome(events)
    {
      var commandOptions := FormatOptions(options);
      var cwd := Cwd(options, moduleDir);
      serverless := new Serverless(cwd);
      spawn, outcome := serverless.InvokeCommandWithResult(command, commandOptions, events);
    }
  }
}
