/** The AutoGenerate object: the rule table, the hosting-service facts it asks
    for, and the once-filled file-list cache that every pattern rule reuses. */
module AutoGen {
  import opened Results
  import opened Rules

  const FilesContext := "Error getting all files in repo"
  const PatternTasksContext := "Error getting file pattern tasks"
  const TasksContext := "failed to get tasks"

  /** What listing the repository tree gives: every path, or the service's error. */
  datatype FetchOutcome = Fetched(paths: seq<string>) | FetchFailed(message: string)

  /** The regular-expression engine, kept abstract: compiling may fail, matching is a test on one path. */
  datatype RegexEngine<!R> = RegexEngine(compile: string -> Option<R>, matchString: (R, string) -> bool)

  /** The facts the matcher consults: the repository's file listing and the regex engine. */
  datatype Host<!R> = Host(remote: FetchOutcome, engine: RegexEngine<R>)

  /** The three results of GetFilePatternTasks. */
  datatype PatternResult = PatternResult(detected: bool, tasks: seq<string>, err: Option<Error>)

  /** What Output hands to the template engine. */
  datatype RenderInput = RenderInput(configs: map<string, Config>, tasks: seq<string>, template: string)

  /** The list GetAllFilesInRepo returns: the paths, or an empty (non-nil) list on failure. */
  function CachedFiles(o: FetchOutcome): seq<string> {
    if o.Fetched? then o.paths else []
  }

  /** The cache after a pattern rule has been evaluated: filled if it was empty. */
  function FillCache<R>(host: Host<R>, cache: Option<seq<string>>): Option<seq<string>> {
    if cache.Some? then cache else Some(CachedFiles(host.remote))
  }

  /** The file list a pattern rule is matched against. */
  function Files<R>(host: Host<R>, cache: Option<seq<string>>): seq<string> {
    FillCache(host, cache).value
  }

  /** The cache is still empty and the fetch will fail: pattern matching cannot proceed. */
  predicate FetchBlocked<R>(host: Host<R>, cache: Option<seq<string>>) {
    cache.None? && host.remote.FetchFailed?
  }

  /** Some path of `files` matches `re`. */
  predicate MatchesAny<R>(engine: RegexEngine<R>, re: R, files: seq<string>) {
    exists i :: 0 <= i < |files| && engine.matchString(re, files[i])
  }

  /** A pattern rule whose pattern compiles and matches some path. */
  predicate Detected<R>(engine: RegexEngine<R>, files: seq<string>, c: Config) {
    && c.pattern != ""
    && engine.compile(c.pattern).Some?
    && MatchesAny(engine, engine.compile(c.pattern).value, files)
  }

  /** What GetFilePatternTasks returns for `c` when the cache holds `cache`. */
  function PatternResultOf<R>(host: Host<R>, cache: Option<seq<string>>, c: Config): (r: PatternResult)
    ensures r.err.Some? <==> FetchBlocked(host, cache) || host.engine.compile(c.pattern).None?
    ensures FetchBlocked(host, cache) ==> r.err == Some(Wrapped(FilesContext, HostError(host.remote.message)))
    ensures r.err.Some? ==> !r.detected && r.tasks == []
    ensures r.err.None? ==> (r.detected <==> MatchesAny(host.engine, host.engine.compile(c.pattern).value, Files(host, cache)))
    ensures r.tasks == if r.detected then TaskNames(c.tasks) else []
  {
    if FetchBlocked(host, cache) then
      PatternResult(false, [], Some(Wrapped(FilesContext, HostError(host.remote.message))))
    else match host.engine.compile(c.pattern)
      case None => PatternResult(false, [], Some(PatternCompileError(c.pattern)))
      case Some(re) =>
        if MatchesAny(host.engine, re, Files(host, cache)) then PatternResult(true, TaskNames(c.tasks), None)
        else PatternResult(false, [], None)
  }

  /** The cache does not matter once the fetch cannot fail: an empty cache gives the same result as a filled one. */
  lemma PatternResultCacheIrrelevant<R>(host: Host<R>, cache: Option<seq<string>>, c: Config)
    requires !FetchBlocked(host, cache)
    ensures PatternResultOf(host, cache, c) == PatternResultOf(host, FillCache(host, cache), c)
  {
  }

  predicate HasPattern(table: ConfigTable) {
    exists i :: 0 <= i < |table| && table[i].1.pattern != ""
  }

  /** `xs` followed by the tasks of `r`; an error stays an error. */
  function Prepend(xs: seq<string>, r: Result<seq<string>>): Result<seq<string>> {
    match r
    case Ok(ys) => Ok(xs + ys)
    case Err(e) => Err(e)
  }

  lemma PrependAssoc(xs: seq<string>, ys: seq<string>, r: Result<seq<string>>)
    ensures Prepend(xs, Prepend(ys, r)) == Prepend(xs + ys, r)
    ensures Prepend([], r) == r
  {
    if r.Ok? {
      assert xs + (ys + r.value) == (xs + ys) + r.value;
      assert [] + r.value == r.value;
    }
  }

  /** What GetTasks returns from the cache state `cache`, walking `table` in order. */
  function Aggregate<R>(host: Host<R>, cache: Option<seq<string>>, table: ConfigTable): Result<seq<string>>
    decreases |table|
  {
    if table == [] then Ok([])
    else
      var c := table[0].1;
      if c.pattern != "" then
        var p := PatternResultOf(host, cache, c);
        if p.err.Some? then Err(Wrapped(PatternTasksContext, p.err.value))
        else Prepend(p.tasks, Aggregate(host, FillCache(host, cache), table[1..]))
      else
        Prepend(TaskNames(c.tasks), Aggregate(host, cache, table[1..]))
  }

  /** One step of the walk: the rule at position `i` followed by the rest of the table. */
  lemma AggregateStep<R>(host: Host<R>, cache: Option<seq<string>>, table: ConfigTable, i: nat)
    requires i < |table|
    ensures table[i..][1..] == table[i + 1..]
    ensures Aggregate(host, cache, table[i..]) ==
      var c := table[i].1;
      if c.pattern != "" then
        var p := PatternResultOf(host, cache, c);
        if p.err.Some? then Err(Wrapped(PatternTasksContext, p.err.value))
        else Prepend(p.tasks, Aggregate(host, FillCache(host, cache), table[i + 1..]))
      else Prepend(TaskNames(c.tasks), Aggregate(host, cache, table[i + 1..]))
  {
    assert table[i..][1..] == table[i + 1..];
  }

  lemma HasPatternStep(table: ConfigTable, i: nat)
    requires i < |table|
    ensures HasPattern(table[..i + 1]) == (HasPattern(table[..i]) || table[i].1.pattern != "")
    ensures HasPattern(table[..|table|]) == HasPattern(table)
  {
    assert table[..i + 1][i] == table[i];
    assert forall j :: 0 <= j < i ==> table[..i + 1][j] == table[..i][j];
    assert table[..|table|] == table;
  }

  /** What Output returns from the cache state `cache`: the render inputs, or the task error wrapped. */
  function OutputOf<R>(host: Host<R>, cache: Option<seq<string>>, table: ConfigTable,
                       selected: map<string, Config>, template: string): Result<RenderInput>
  {
    match Aggregate(host, cache, table)
    case Ok(ts) => Ok(RenderInput(selected, ts, template))
    case Err(e) => Err(Wrapped(TasksContext, e))
  }

  /** Reference definition of a rule's share of the task list, with the file list fixed. */
  function Contribution<R>(engine: RegexEngine<R>, files: seq<string>, c: Config): seq<string> {
    if c.pattern == "" || Detected(engine, files, c) then TaskNames(c.tasks) else []
  }

  /** All contributions, concatenated in table order, duplicates kept. */
  function Contributions<R>(engine: RegexEngine<R>, files: seq<string>, table: ConfigTable): seq<string>
    decreases |table|
  {
    if table == [] then [] else Contribution(engine, files, table[0].1) + Contributions(engine, files, table[1..])
  }

  /** Every pattern rule of the table can be evaluated: its pattern compiles and the file list is obtainable. */
  predicate PatternsUsable<R>(host: Host<R>, cache: Option<seq<string>>, table: ConfigTable) {
    forall i :: 0 <= i < |table| && table[i].1.pattern != "" ==>
      host.engine.compile(table[i].1.pattern).Some? && !FetchBlocked(host, cache)
  }

  /** GetTasks succeeds exactly when every pattern rule is usable, and then yields
      every rule's contribution in table order; a failure is reported wrapped. */
  lemma {:induction false} AggregateCharacterised<R>(host: Host<R>, cache: Option<seq<string>>, table: ConfigTable)
    ensures Aggregate(host, cache, table).Ok? <==> PatternsUsable(host, cache, table)
    ensures Aggregate(host, cache, table).Ok? ==>
      Aggregate(host, cache, table).value == Contributions(host.engine, Files(host, cache), table)
    ensures Aggregate(host, cache, table).Err? ==>
      Aggregate(host, cache, table).error.Wrapped? && Aggregate(host, cache, table).error.context == PatternTasksContext
    decreases |table|
  {
    if table != [] {
      var c := table[0].1;
      var rest := table[1..];
      assert forall i :: 1 <= i < |table| ==> table[i] == rest[i - 1];
      if c.pattern != "" {
        var p := PatternResultOf(host, cache, c);
        var cache' := FillCache(host, cache);
        AggregateCharacterised(host, cache', rest);
        if p.err.None? {
          assert PatternsUsable(host, cache', rest) <==> PatternsUsable(host, cache, table) by {
            if PatternsUsable(host, cache', rest) {
              forall i | 0 <= i < |table| && table[i].1.pattern != ""
                ensures host.engine.compile(table[i].1.pattern).Some? && !FetchBlocked(host, cache)
              {
                if i > 0 { assert rest[i - 1] == table[i]; }
              }
            }
          }
        } else {
          assert !PatternsUsable(host, cache, table) by {
            assert table[0].1.pattern != "";
          }
        }
      } else {
        AggregateCharacterised(host, cache, rest);
        assert PatternsUsable(host, cache, rest) <==> PatternsUsable(host, cache, table) by {
          if PatternsUsable(host, cache, rest) {
            forall i | 0 <= i < |table| && table[i].1.pattern != ""
              ensures host.engine.compile(table[i].1.pattern).Some? && !FetchBlocked(host, cache)
            {
              assert i > 0;
              assert rest[i - 1] == table[i];
            }
          }
        }
      }
    }
  }

  /** Scans `files` in order and stops at the first path `re` matches;
      `scanned` is the number of paths looked at. */
  method ScanFiles<R>(engine: RegexEngine<R>, re: R, files: seq<string>) returns (matched: bool, ghost scanned: nat)
    ensures matched <==> MatchesAny(engine, re, files)
    ensures scanned <= |files|
    ensures matched ==> 1 <= scanned && engine.matchString(re, files[scanned - 1])
    ensures forall j :: 0 <= j < scanned - 1 ==> !engine.matchString(re, files[j])
    ensures !matched ==> scanned == |files|
  {
    matched := false;
    var i := 0;
    scanned := 0;
    while i < |files|
      invariant 0 <= i <= |files| && scanned == i
      invariant forall j :: 0 <= j < i ==> !engine.matchString(re, files[j])
    {
      if engine.matchString(re, files[i]) {
        matched := true;
        scanned := i + 1;
        break;
      }
      i := i + 1;
      scanned := i;
    }
  }

  class AutoGenerate<R> {
    const configs: ConfigTable
    const host: Host<R>
    /** files_in_repo: None until the first pattern rule is evaluated. */
    var filesInRepo: Option<seq<string>>
    /** How many times the repository tree has been fetched. */
    ghost var fetches: nat

    ghost predicate Valid()
      reads this
    {
      && fetches <= 1
      && (filesInRepo.None? <==> fetches == 0)
      && (filesInRepo.Some? ==> filesInRepo.value == CachedFiles(host.remote))
    }

    constructor (configs: ConfigTable, host: Host<R>)
      ensures Valid()
      ensures this.configs == configs && this.host == host
      ensures filesInRepo.None? && fetches == 0
    {
      this.configs := configs;
      this.host := host;
      filesInRepo := None;
      fetches := 0;
    }

    /** Evaluates one pattern rule: fills the cache on first use, compiles the
        pattern, and returns the rule's task names if some path matches. */
    method GetFilePatternTasks(config: Config) returns (detected: bool, tasks: seq<string>, err: Option<Error>)
      requires Valid()
      modifies this`filesInRepo, this`fetches
      ensures Valid()
      ensures filesInRepo == FillCache(host, old(filesInRepo))
      ensures fetches == if old(filesInRepo).None? then 1 else old(fetches)
      ensures PatternResult(detected, tasks, err) == PatternResultOf(host, old(filesInRepo), config)
    {
      if filesInRepo.None? {
        var outcome := host.remote;
        fetches := fetches + 1;
        filesInRepo := Some(CachedFiles(outcome));
        if outcome.FetchFailed? {
          return false, [], Some(Wrapped(FilesContext, HostError(outcome.message)));
        }
      }
      var files := filesInRepo.value;
      var reg := host.engine.compile(config.pattern);
      if reg.None? {
        return false, [], Some(PatternCompileError(config.pattern));
      }
      var matched, _ := ScanFiles(host.engine, reg.value, files);
      if !matched {
        return false, [], None;
      }
      tasks := [];
      var j := 0;
      while j < |config.tasks|
        invariant 0 <= j <= |config.tasks|
        invariant tasks == TaskNames(config.tasks[..j])
      {
        tasks := tasks + [config.tasks[j].name];
        j := j + 1;
      }
      assert config.tasks[..j] == config.tasks;
      return true, tasks, None;
    }

    /** Concatenates, in table order, every rule's task names: all of them for a
        language rule, the matched ones for a pattern rule. Any pattern error aborts. */
    method GetTasks() returns (tasks: seq<string>, err: Option<Error>)
      requires Valid()
      modifies this`filesInRepo, this`fetches
      ensures Valid()
      ensures filesInRepo == if HasPattern(configs) then FillCache(host, old(filesInRepo)) else old(filesInRepo)
      ensures old(filesInRepo).Some? ==> fetches == old(fetches)
      ensures Aggregate(host, old(filesInRepo), configs) == if err.Some? then Err(err.value) else Ok(tasks)
      ensures err.Some? ==> tasks == []
    {
      tasks := [];
      var i := 0;
      assert configs[i..] == configs;
      PrependAssoc([], [], Aggregate(host, filesInRepo, configs));
      while i < |configs|
        invariant 0 <= i <= |configs|
        invariant Valid()
        invariant filesInRepo == if HasPattern(configs[..i]) then FillCache(host, old(filesInRepo)) else old(filesInRepo)
        invariant old(filesInRepo).Some? ==> fetches == old(fetches)
        invariant Aggregate(host, old(filesInRepo), configs) == Prepend(tasks, Aggregate(host, filesInRepo, configs[i..]))
      {
        var config := configs[i].1;
        AggregateStep(host, filesInRepo, configs, i);
        HasPatternStep(configs, i);
        if config.pattern != "" {
          var _, fptasks, e := GetFilePatternTasks(config);
          if e.Some? {
            return [], Some(Wrapped(PatternTasksContext, e.value));
          }
          PrependAssoc(tasks, fptasks, Aggregate(host, filesInRepo, configs[i + 1..]));
          tasks := tasks + fptasks;
          i := i + 1;
          continue;
        }
        ghost var before := tasks;
        var j := 0;
        while j < |config.tasks|
          invariant 0 <= j <= |config.tasks|
          invariant tasks == before + TaskNames(config.tasks[..j])
        {
          tasks := tasks + [config.tasks[j].name];
          j := j + 1;
        }
        assert config.tasks[..j] == config.tasks;
        PrependAssoc(before, TaskNames(config.tasks), Aggregate(host, filesInRepo, configs[i + 1..]));
        i := i + 1;
      }
      assert configs[..i] == configs && configs[i..] == [];
      assert tasks + [] == tasks;
      return tasks, None;
    }

    /** Gathers the render inputs: the selected rules, the aggregated task list and the template text. */
    method Output(selected: map<string, Config>, template: string) returns (r: Result<RenderInput>)
      requires Valid()
      modifies this`filesInRepo, this`fetches
      ensures Valid()
      ensures filesInRepo == if HasPattern(configs) then FillCache(host, old(filesInRepo)) else old(filesInRepo)
      ensures old(filesInRepo).Some? ==> fetches == old(fetches)
      ensures r == OutputOf(host, old(filesInRepo), configs, selected, template)
    {
      var allTasks, err := GetTasks();
      if err.Some? {
        return Err(Wrapped(TasksContext, err.value));
      }
      return Ok(RenderInput(selected, allTasks, template));
    }
  }
}
