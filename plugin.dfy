/**
  The webpack plugin class `TidyJigsawOutput` (index.js lines 8-95).

  The file system is seen through a `Host`: the set of paths `fs.existsSync`
  accepts, and `path.normalize` and one-argument `path.resolve` as functions
  whose workings are not part of this model. The directory tree below the
  input root is given as a `Tree.Node` snapshot, and the formatter `pretty`
  is a parameter.
*/
module Plugin {
  import opened Wrappers
  import opened Config
  import opened Tree

  datatype Host = Host(existing: set<string>, normalize: string -> string, resolve: string -> string)
  {
    /** `path.normalize` as on a real file system: a normalized existing path exists, and normalizing it again changes nothing. */
    ghost predicate NormalizeSound()
    {
      forall p :: p in existing ==> normalize(p) in existing && normalize(normalize(p)) == normalize(p)
    }
  }

  /** The errors the plugin throws. */
  datatype PluginError =
    | HookMissing                    // `compiler.hooks.jigsawDone` is absent (lines 70-72)
    | InputNotFound(location: string) // the input root does not exist (lines 79-83)
    | OutputUnresolved               // `path.resolve(undefined)` when the output root does not exist (line 86)
    | NotADirectory(dir: string)     // `readdir` fails on the input root (lines 43-46)

  /** What one build does: nothing (the environment is not allowed), a tidy with its writes, or a thrown error. */
  datatype Outcome = Skipped | Tidied(writes: seq<Write>) | Failed(error: PluginError)

  /** `outDir = outDir || inDir` (line 41). */
  function MirrorRoot(inDir: string, outDir: string): string
  {
    if outDir == "" then inDir else outDir
  }

  class TidyJigsawOutput {
    const options: Options
    /** The environment named on the command line (`argv.env`), passed in rather than read from the process. */
    const defaultEnv: Option<string>

    const env: string := OrElse(options.env, OrElse(defaultEnv, "local"))
    const allowedEnvs: AllowList := AllowListOrStar(options.allowedEnvs)
    const pattern: Pattern := if options.test.Some? then options.test.value else HtmlSuffix
    const encoding: string := OrElse(options.encoding, "utf8")
    const rules: Rules := if options.rules.Some? then options.rules.value else DefaultRules()

    /** Each setting falls back on its own when its option is falsy (lines 10-17). */
    constructor (options: Options, defaultEnv: Option<string>)
      ensures this.options == options && this.defaultEnv == defaultEnv
      ensures env != ""
      ensures Truthy(options.env) ==> env == options.env.value
      ensures !Truthy(options.env) && Truthy(defaultEnv) ==> env == defaultEnv.value
      ensures !Truthy(options.env) && !Truthy(defaultEnv) ==> env == "local"
      ensures allowedEnvs == if options.allowedEnvs.Truthy() then options.allowedEnvs else Str("*")
      ensures forall path ::
        (Matches(pattern, path) <==> if options.test.Some? then Matches(options.test.value, path) else EndsWith(path, ".html"))
      ensures encoding == if Truthy(options.encoding) then options.encoding.value else "utf8"
      ensures rules == if options.rules.Some? then options.rules.value else map["ocd" := Flag(true)]
    {
      this.options := options;
      this.defaultEnv := defaultEnv;
    }

    /** `getPath` (lines 19-23): the normalized path when the path exists, `undefined` otherwise. */
    function GetPath(host: Host, s: string): (r: Option<string>)
      ensures r.Some? <==> s in host.existing
      ensures r.Some? ==> r.value == host.normalize(s)
    {
      if s in host.existing then Some(host.normalize(s)) else None
    }

    /** `getInPath` (lines 25-27): the `input` option, or `./build_<env>` when it is falsy. */
    function GetInPath(host: Host): (r: Option<string>)
      ensures Truthy(options.input) ==> r == GetPath(host, options.input.value)
      ensures !Truthy(options.input) ==> r == GetPath(host, "./build_" + env)
    {
      GetPath(host, OrElse(options.input, "./build_" + env))
    }

    /** `getOutPath` (lines 29-31): the `output` option, or else the resolved input root. */
    function GetOutPath(host: Host): (r: Option<string>)
      ensures Truthy(options.output) ==> r == GetPath(host, options.output.value)
      ensures !Truthy(options.output) ==> (r.Some? ==> GetInPath(host).Some?)
    {
      if Truthy(options.output) then GetPath(host, options.output.value)
      else
        match GetInPath(host)
        case None => None
        case Some(p) => GetPath(host, p)
    }

    /**
      Without an `output` option the output root is the input root, on a host
      whose `path.normalize` behaves as on a real file system.
    */
    lemma OutputFallsBackToInput(host: Host)
      requires host.NormalizeSound()
      requires !Truthy(options.output)
      ensures GetOutPath(host) == GetInPath(host)
    {
    }

    /** The location the "does not exist" message names (line 80): `build_<env>` without the `./` of the path checked. */
    function InputLocation(): string
    {
      OrElse(options.input, "build_" + env)
    }

    /** The allow-list condition of line 76 on the constructed settings. */
    predicate EnvAllowed()
    {
      Allowed(allowedEnvs, env)
    }

    /**
      With the constructor's defaults in place, tidying proceeds exactly when
      no list was configured, the list is `'*'` or the environment's name, or
      the list is an array holding that name; so an empty array stops every
      build and the default configuration stops none.
    */
    lemma GateAfterConstruction()
      ensures EnvAllowed() <==>
        !options.allowedEnvs.Truthy() || options.allowedEnvs == Str("*") || options.allowedEnvs == Str(env)
        || (options.allowedEnvs.Arr? && env in options.allowedEnvs.items)
      ensures options.allowedEnvs == Unset ==> EnvAllowed()
      ensures options.allowedEnvs == Arr([]) ==> !EnvAllowed()
    {
      ConfiguredGate(options.allowedEnvs, env);
    }

    /** The pattern, rules and formatter one tidy works with. */
    function Job(pretty: (string, Rules) -> string): Tidier
    {
      Tidier(pattern, rules, pretty)
    }

    /**
      `tidyOutput` (lines 39-66). The `readdir` callbacks run first-in
      first-out from a queue; each handles its listing in order, writing the
      matched files and queueing the subdirectories with mirrored output
      directories.
    */
    method TidyOutput(tree: Node, inDir: string, outDir: string, pretty: (string, Rules) -> string)
      returns (r: Result<seq<Write>, PluginError>)
      ensures tree.File? ==> r == Failure(NotADirectory(inDir))
      ensures tree.Dir? ==> r == Success(Schedule(Job(pretty), [Pending(tree.entries, inDir, MirrorRoot(inDir, outDir))]))
      ensures tree.Dir? ==> multiset(r.value) == multiset(Expected(Job(pretty), tree.entries, inDir, MirrorRoot(inDir, outDir)))
    {
      var out := if outDir == "" then inDir else outDir;
      if tree.File? {
        return Failure(NotADirectory(inDir));
      }
      var t := Job(pretty);
      ghost var start := [Pending(tree.entries, inDir, out)];
      var writes: seq<Write> := [];
      var queue := [Pending(tree.entries, inDir, out)];
      while queue != []
        invariant writes + Schedule(t, queue) == Schedule(t, start)
        decreases QueueSize(queue)
      {
        var batch, started := ReadDirCallback(t, queue[0]);
        CallbackStep(t, queue, writes, batch, started);
        writes, queue := writes + batch, queue[1..] + started;
      }
      assert writes + Schedule(t, queue) == writes;
      ScheduleIsExpected(t, tree.entries, inDir, out);
      return Success(writes);
    }

    /**
      `apply` (lines 68-94) together with the one firing of the `jigsawDone`
      hook it registers for. A missing hook fails at once; an environment
      outside the allow-list ends the build without touching the file system;
      a missing input root fails before anything is written; otherwise the
      tree below the input root is tidied into the resolved output root.
    */
    method Apply(hookPresent: bool, host: Host, tree: Node, pretty: (string, Rules) -> string) returns (o: Outcome)
      ensures !hookPresent ==> o == Failed(HookMissing)
      ensures hookPresent && !EnvAllowed() ==> o == Skipped
      ensures hookPresent && EnvAllowed() && GetInPath(host).None? ==> o == Failed(InputNotFound(InputLocation()))
      ensures hookPresent && EnvAllowed() && GetInPath(host).Some? && GetOutPath(host).None? ==> o == Failed(OutputUnresolved)
      ensures hookPresent && EnvAllowed() && GetInPath(host).Some? && GetOutPath(host).Some? ==>
        var inDir := host.resolve(GetInPath(host).value);
        var outDir := MirrorRoot(inDir, host.resolve(GetOutPath(host).value));
        o == if tree.File? then Failed(NotADirectory(inDir))
             else Tidied(Schedule(Job(pretty), [Pending(tree.entries, inDir, outDir)]))
    {
      if !hookPresent {
        return Failed(HookMissing);
      }
      if !EnvAllowed() {
        return Skipped;
      }
      var inPath := GetInPath(host);
      if inPath.None? {
        return Failed(InputNotFound(InputLocation()));
      }
      var outPath := GetOutPath(host);
      if outPath.None? {
        return Failed(OutputUnresolved);
      }
      var inDir := host.resolve(inPath.value);
      var outDir := host.resolve(outPath.value);
      var r := TidyOutput(tree, inDir, outDir, pretty);
      match r {
        case Success(writes) => o := Tidied(writes);
        case Failure(e) => o := Failed(e);
      }
    }
  }
}
