/** Detect: checks the owner/repo argument, selects the rules of the detected
    languages, runs the pattern-merge and template-selection loop, and hands
    the result to Output. */
module Detection {
  import opened Results
  import opened Strings
  import opened Rules
  import opened AutoGen

  /** The command-line options Detect reads (the access token only authenticates the hosting-service client). */
  datatype Cli = Cli(
    ownerRepo: string,
    targetRef: string,
    autoGenerateYaml: string,
    pipelineRunYaml: string,
    templatesLanguageDir: string)

  /** Everything outside the core, as given facts and oracles. */
  datatype Environment<!R> = Environment(
    listLanguages: (string, string) -> Result<seq<string>>,  // detected language names of owner/repo
    loadConfig: string -> Result<ConfigTable>,               // AutoGenerate.New on a configuration path
    readFile: string -> Option<string>,                      // os.ReadFile
    embeddedTemplates: string -> Option<string>,             // the embedded templates/languages directory
    embeddedPipelineRun: string,                             // the embedded default template
    listFiles: (string, string, string) -> FetchOutcome,     // GetAllFilesInRepo(owner, repo, targetRef)
    engine: RegexEngine<R>)

  /** Where named templates are read from. */
  datatype TemplateSource = TemplateSource(
    dir: string,
    readFile: string -> Option<string>,
    embedded: string -> Option<string>)

  /** The owner/repo check: splitting on '/' must give exactly two parts; empty parts are accepted. */
  function SplitOwnerRepo(s: string): (r: Result<(string, string)>)
    ensures r.Ok? <==> Count(s, '/') == 1
    ensures r.Err? ==> r.error == OwnerRepoMissing
    ensures r.Ok? ==> r.value.0 + "/" + r.value.1 == s && '/' !in r.value.0 && '/' !in r.value.1
  {
    var parts := Split(s, '/');
    SplitCount(s, '/');
    SplitJoin(s, '/');
    SplitPartsFree(s, '/');
    if |parts| != 2 then Err(OwnerRepoMissing)
    else
      assert Join(parts, '/') == parts[0] + "/" + parts[1];
      Ok((parts[0], parts[1]))
  }

  /** The rule the language `lang` selects (its lower-cased name is a rule key) and the key it is stored under. */
  predicate SelectsUnder(table: ConfigTable, lang: string, kn: string) {
    Lookup(table, ToLower(lang)).Some? && NameOrKey(ToLower(lang), Lookup(table, ToLower(lang)).value) == kn
  }

  /** The configs map after the language loop has seen `langs`, in that order. */
  function LanguageSelection(table: ConfigTable, langs: seq<string>): map<string, Config>
    decreases |langs|
  {
    if langs == [] then map[]
    else
      var prev := LanguageSelection(table, langs[..|langs| - 1]);
      var kl := ToLower(langs[|langs| - 1]);
      match Lookup(table, kl)
      case None => prev
      case Some(c) => prev[NameOrKey(kl, c) := c]
  }

  /** One key of the language selection: present iff some detected language selects a rule stored under it. */
  lemma {:induction false} LanguageSelectionKeys(table: ConfigTable, langs: seq<string>, kn: string)
    ensures kn in LanguageSelection(table, langs) <==>
      exists i :: 0 <= i < |langs| && SelectsUnder(table, langs[i], kn)
    decreases |langs|
  {
    if langs != [] {
      var n := |langs| - 1;
      var init := langs[..n];
      LanguageSelectionKeys(table, init, kn);
      var sel := LanguageSelection(table, langs);
      var prev := LanguageSelection(table, init);
      if SelectsUnder(table, langs[n], kn) {
        assert kn in sel;
      } else {
        assert kn in sel <==> kn in prev;
        if exists i :: 0 <= i < |langs| && SelectsUnder(table, langs[i], kn) {
          var i :| 0 <= i < |langs| && SelectsUnder(table, langs[i], kn);
          assert init[i] == langs[i];
        }
        if kn in prev {
          var i :| 0 <= i < n && SelectsUnder(table, init[i], kn);
          assert init[i] == langs[i];
        }
      }
    }
  }

  /** The value under a selected key: the rule, unchanged, of a detected language that selects it. */
  lemma {:induction false} LanguageSelectionValues(table: ConfigTable, langs: seq<string>, kn: string)
    ensures kn in LanguageSelection(table, langs) ==>
      exists i :: 0 <= i < |langs| && SelectsUnder(table, langs[i], kn) &&
        LanguageSelection(table, langs)[kn] == Lookup(table, ToLower(langs[i])).value
    decreases |langs|
  {
    if langs != [] {
      var n := |langs| - 1;
      var init := langs[..n];
      LanguageSelectionValues(table, init, kn);
      var sel := LanguageSelection(table, langs);
      var prev := LanguageSelection(table, init);
      if SelectsUnder(table, langs[n], kn) {
        assert sel[kn] == Lookup(table, ToLower(langs[n])).value;
      } else if kn in sel {
        assert kn in prev && sel[kn] == prev[kn];
        var i :| 0 <= i < n && SelectsUnder(table, init[i], kn) && prev[kn] == Lookup(table, ToLower(init[i])).value;
        assert init[i] == langs[i];
      }
    }
  }

  /** The whole language selection: its keys are exactly the Name-or-key identities of the
      rules the detected languages select, each holding the selected rule. */
  lemma LanguageSelectionCharacterised(table: ConfigTable, langs: seq<string>)
    ensures forall kn :: kn in LanguageSelection(table, langs) <==>
      exists i :: 0 <= i < |langs| && SelectsUnder(table, langs[i], kn)
    ensures forall kn :: kn in LanguageSelection(table, langs) ==>
      exists i :: 0 <= i < |langs| && SelectsUnder(table, langs[i], kn) &&
        LanguageSelection(table, langs)[kn] == Lookup(table, ToLower(langs[i])).value
  {
    forall kn {
      LanguageSelectionKeys(table, langs, kn);
    }
    forall kn {
      LanguageSelectionValues(table, langs, kn);
    }
  }

  /** The language loop of Detect: each detected language, lower-cased, that is a
      rule key stores that rule under its name, or under the key when it has none. */
  method SelectByLanguage(table: ConfigTable, langs: seq<string>) returns (configs: map<string, Config>)
    ensures configs == LanguageSelection(table, langs)
  {
    configs := map[];
    var i := 0;
    while i < |langs|
      invariant 0 <= i <= |langs|
      invariant configs == LanguageSelection(table, langs[..i])
    {
      var kl := ToLower(langs[i]);
      assert langs[..i + 1][..i] == langs[..i];
      var c := Lookup(table, kl);
      if c.Some? {
        var kn := kl;
        if c.value.name != "" {
          kn := c.value.name;
        }
        configs := configs[kn := c.value];
      }
      i := i + 1;
    }
    assert langs[..i] == langs;
  }

  /** A named template: from the templates directory when one is configured, else from the embedded set. */
  function ReadTemplate(src: TemplateSource, name: string): Option<string> {
    var file := name + ".yaml.go.tmpl";
    if src.dir != "" then src.readFile(src.dir + "/" + file) else src.embedded("templates/languages/" + file)
  }

  /** The template text a loop iteration settles on for `c`: the default, or the rule's own named template. */
  function TemplateFor(src: TemplateSource, default: string, c: Config): Option<string> {
    if c.pipelineRun == "" then Some(default) else ReadTemplate(src, c.pipelineRun)
  }

  /** How the loop words the error for a rule whose named template cannot be read. */
  datatype TemplateReport =
    | AsWritten      // formatted with the loop's `pipelineRun`, which the iteration has just reset to the default text
    | NamesTemplate  // formatted with the template name the rule gives

  /** The error for rule `c` whose named template is missing, with `default` the default template text. */
  function MissingTemplateError(report: TemplateReport, default: string, c: Config): Error {
    match report
    case AsWritten => TemplateReadError(default)
    case NamesTemplate => TemplateReadError(c.pipelineRun)
  }

  /** Where the loop stands when it returns. */
  datatype MergeOutcome =
    | Merged(configs: map<string, Config>, pipelineRun: string, cache: Option<seq<string>>, visited: nat)
    | MergeFailed(error: Error, cache: Option<seq<string>>)

  /** The pattern-merge loop from position `i`, with the configs map, the
      template text and the file cache as they stand there. */
  function Merge<R>(host: Host<R>, src: TemplateSource, default: string, report: TemplateReport, table: ConfigTable, i: nat,
                    configs: map<string, Config>, pipelineRun: string, cache: Option<seq<string>>): MergeOutcome
    requires i <= |table|
    decreases |table| - i
  {
    if i == |table| then Merged(configs, pipelineRun, cache, i)
    else
      var key := table[i].0;
      var c := table[i].1;
      match TemplateFor(src, default, c)
      case None => MergeFailed(MissingTemplateError(report, default, c), cache)
      case Some(run) =>
        if c.pattern == "" then Merge(host, src, default, report, table, i + 1, configs, run, cache)
        else
          var p := PatternResultOf(host, cache, c);
          var cache' := FillCache(host, cache);
          if p.err.Some? then MergeFailed(Wrapped(PatternTasksContext, p.err.value), cache')
          else
            var configs' := if |p.tasks| != 0 then configs[NameOrKey(key, c) := c] else configs;
            if p.detected && c.pipelineRun != "" then Merged(configs', run, cache', i + 1)
            else Merge(host, src, default, report, table, i + 1, configs', run, cache')
  }

  /** A detected pattern rule with its own template: the loop breaks after it. */
  predicate Halts<R>(engine: RegexEngine<R>, files: seq<string>, c: Config) {
    Detected(engine, files, c) && c.pipelineRun != ""
  }

  /** The rule at `j` is a detected pattern rule with tasks, stored under `kn`. */
  predicate WritesKey<R>(engine: RegexEngine<R>, files: seq<string>, table: ConfigTable, j: int, kn: string) {
    && 0 <= j < |table|
    && Detected(engine, files, table[j].1)
    && |table[j].1.tasks| != 0
    && NameOrKey(table[j].0, table[j].1) == kn
  }

  /** The iteration for `c` ends Detect with an error: its template is missing, or its pattern cannot be evaluated. */
  predicate StepFails<R>(host: Host<R>, src: TemplateSource, default: string, cache: Option<seq<string>>, c: Config) {
    TemplateFor(src, default, c).None? || (c.pattern != "" && PatternResultOf(host, cache, c).err.Some?)
  }

  lemma PatternDetected<R>(host: Host<R>, cache: Option<seq<string>>, c: Config)
    requires c.pattern != "" && PatternResultOf(host, cache, c).err.None?
    ensures PatternResultOf(host, cache, c).detected <==> Detected(host.engine, Files(host, cache), c)
    ensures |PatternResultOf(host, cache, c).tasks| != 0 <==> Detected(host.engine, Files(host, cache), c) && |c.tasks| != 0
  {
  }

  /** The loop leaves the cache as it found it or filled. */
  lemma {:induction false} MergeCache<R>(host: Host<R>, src: TemplateSource, default: string, report: TemplateReport, table: ConfigTable, i: nat,
                                         configs: map<string, Config>, run: string, cache: Option<seq<string>>)
    requires i <= |table|
    ensures Merge(host, src, default, report, table, i, configs, run, cache).cache in {cache, FillCache(host, cache)}
    decreases |table| - i
  {
    if i < |table| {
      var c := table[i].1;
      var t := TemplateFor(src, default, c);
      if t.Some? {
        if c.pattern == "" {
          MergeCache(host, src, default, report, table, i + 1, configs, t.value, cache);
        } else {
          var p := PatternResultOf(host, cache, c);
          var configs' := if |p.tasks| != 0 then configs[NameOrKey(table[i].0, c) := c] else configs;
          MergeCache(host, src, default, report, table, i + 1, configs', t.value, FillCache(host, cache));
        }
      }
    }
  }

  /** Where the loop stops: at the first detected pattern rule with a template, or at the end;
      the template it returns is the one settled on by the last iteration it ran. */
  lemma {:induction false} MergeStops<R>(host: Host<R>, src: TemplateSource, default: string, report: TemplateReport, table: ConfigTable, i: nat,
                                         configs: map<string, Config>, run: string, cache: Option<seq<string>>)
    requires i <= |table|
    ensures var o := Merge(host, src, default, report, table, i, configs, run, cache);
      o.Merged? ==>
        && i <= o.visited <= |table|
        && (o.visited == i ==> i == |table| && o.pipelineRun == run)
        && (o.visited > i ==> TemplateFor(src, default, table[o.visited - 1].1) == Some(o.pipelineRun))
        && (o.visited < |table| ==> o.visited > i && Halts(host.engine, Files(host, cache), table[o.visited - 1].1))
        && forall j :: i <= j < o.visited - 1 ==> !Halts(host.engine, Files(host, cache), table[j].1)
    decreases |table| - i, 1
  {
    if i < |table| {
      var c := table[i].1;
      var t := TemplateFor(src, default, c);
      var o := Merge(host, src, default, report, table, i, configs, run, cache);
      if t.Some? {
        if c.pattern == "" {
          MergeStops(host, src, default, report, table, i + 1, configs, t.value, cache);
          assert o == Merge(host, src, default, report, table, i + 1, configs, t.value, cache);
          assert !Halts(host.engine, Files(host, cache), c);
        } else {
          StopsAtPattern(host, src, default, report, table, i, configs, run, cache);
        }
      }
    }
  }

  /** MergeStops when the rule at `i` is a pattern rule whose template can be read. */
  lemma {:induction false} StopsAtPattern<R>(host: Host<R>, src: TemplateSource, default: string, report: TemplateReport, table: ConfigTable, i: nat,
                                         configs: map<string, Config>, run: string, cache: Option<seq<string>>)
    requires i < |table| && table[i].1.pattern != "" && TemplateFor(src, default, table[i].1).Some?
    ensures var o := Merge(host, src, default, report, table, i, configs, run, cache);
      o.Merged? ==>
        && i < o.visited <= |table|
        && TemplateFor(src, default, table[o.visited - 1].1) == Some(o.pipelineRun)
        && (o.visited < |table| ==> Halts(host.engine, Files(host, cache), table[o.visited - 1].1))
        && forall j :: i <= j < o.visited - 1 ==> !Halts(host.engine, Files(host, cache), table[j].1)
    decreases |table| - i, 0
  {
    var c := table[i].1;
    var t := TemplateFor(src, default, c);
    var o := Merge(host, src, default, report, table, i, configs, run, cache);
    var p := PatternResultOf(host, cache, c);
    if p.err.None? {
      PatternDetected(host, cache, c);
      var cache' := FillCache(host, cache);
      assert Files(host, cache') == Files(host, cache);
      var configs' := if |p.tasks| != 0 then configs[NameOrKey(table[i].0, c) := c] else configs;
      if p.detected && c.pipelineRun != "" {
        assert o == Merged(configs', t.value, cache', i + 1);
      } else {
        MergeStops(host, src, default, report, table, i + 1, configs', t.value, cache');
        assert o == Merge(host, src, default, report, table, i + 1, configs', t.value, cache');
        assert !Halts(host.engine, Files(host, cache), c);
      }
    }
  }

  /** Which keys the loop adds: exactly those of the detected pattern rules with tasks
      that it reaches; language rules never add a key. */
  lemma {:induction false} MergeKeys<R>(host: Host<R>, src: TemplateSource, default: string, report: TemplateReport, table: ConfigTable, i: nat,
                                        configs: map<string, Config>, run: string, cache: Option<seq<string>>, kn: string)
    requires i <= |table|
    ensures var o := Merge(host, src, default, report, table, i, configs, run, cache);
      o.Merged? ==> (kn in o.configs <==>
        kn in configs || exists j :: i <= j < o.visited && WritesKey(host.engine, Files(host, cache), table, j, kn))
    decreases |table| - i, 1
  {
    if i < |table| {
      var c := table[i].1;
      var t := TemplateFor(src, default, c);
      var o := Merge(host, src, default, report, table, i, configs, run, cache);
      if t.Some? {
        if c.pattern == "" {
          MergeKeys(host, src, default, report, table, i + 1, configs, t.value, cache, kn);
          assert o == Merge(host, src, default, report, table, i + 1, configs, t.value, cache);
          assert !WritesKey(host.engine, Files(host, cache), table, i, kn);
        } else {
          KeysAtPattern(host, src, default, report, table, i, configs, run, cache, kn);
        }
      }
    }
  }

  /** Some rule in [i, k) writes `kn` iff the one at `i` does or some rule in [i + 1, k) does. */
  lemma WrittenFrom<R>(engine: RegexEngine<R>, files: seq<string>, table: ConfigTable, i: int, k: int, kn: string)
    requires i < k
    ensures (exists j :: i <= j < k && WritesKey(engine, files, table, j, kn)) <==>
      WritesKey(engine, files, table, i, kn) || exists j :: i + 1 <= j < k && WritesKey(engine, files, table, j, kn)
  {
    if exists j :: i <= j < k && WritesKey(engine, files, table, j, kn) {
      var j :| i <= j < k && WritesKey(engine, files, table, j, kn);
      if j != i {
        assert i + 1 <= j < k;
      }
    }
  }

  /** MergeKeys when the rule at `i` is a pattern rule whose template can be read. */
  lemma {:induction false} KeysAtPattern<R>(host: Host<R>, src: TemplateSource, default: string, report: TemplateReport, table: ConfigTable, i: nat,
                                        configs: map<string, Config>, run: string, cache: Option<seq<string>>, kn: string)
    requires i < |table| && table[i].1.pattern != "" && TemplateFor(src, default, table[i].1).Some?
    ensures var o := Merge(host, src, default, report, table, i, configs, run, cache);
      o.Merged? ==> (kn in o.configs <==>
        kn in configs || exists j :: i <= j < o.visited && WritesKey(host.engine, Files(host, cache), table, j, kn))
    decreases |table| - i, 0
  {
    var c := table[i].1;
    var t := TemplateFor(src, default, c);
    var files := Files(host, cache);
    var o := Merge(host, src, default, report, table, i, configs, run, cache);
    var p := PatternResultOf(host, cache, c);
    if p.err.None? {
      PatternDetected(host, cache, c);
      var cache' := FillCache(host, cache);
      assert Files(host, cache') == files;
      var kw := NameOrKey(table[i].0, c);
      var configs' := if |p.tasks| != 0 then configs[kw := c] else configs;
      assert WritesKey(host.engine, files, table, i, kn) <==> |p.tasks| != 0 && kn == kw;
      assert kn in configs' <==> kn in configs || WritesKey(host.engine, files, table, i, kn);
      if p.detected && c.pipelineRun != "" {
        assert o == Merged(configs', t.value, cache', i + 1);
      } else {
        MergeKeys(host, src, default, report, table, i + 1, configs', t.value, cache', kn);
        MergeStops(host, src, default, report, table, i + 1, configs', t.value, cache');
        assert o == Merge(host, src, default, report, table, i + 1, configs', t.value, cache');
        if o.Merged? {
          WrittenFrom(host.engine, files, table, i, o.visited, kn);
        }
      }
    }
  }

  /** A key no reached pattern rule writes keeps the value it had before the loop. */
  lemma {:induction false} MergeKeepsValue<R>(host: Host<R>, src: TemplateSource, default: string, report: TemplateReport, table: ConfigTable, i: nat,
                                              configs: map<string, Config>, run: string, cache: Option<seq<string>>, kn: string)
    requires i <= |table|
    ensures var o := Merge(host, src, default, report, table, i, configs, run, cache);
      o.Merged? && kn in configs && (forall j :: i <= j < o.visited ==> !WritesKey(host.engine, Files(host, cache), table, j, kn)) ==>
        kn in o.configs && o.configs[kn] == configs[kn]
    decreases |table| - i
  {
    if i < |table| {
      var c := table[i].1;
      var t := TemplateFor(src, default, c);
      var files := Files(host, cache);
      var o := Merge(host, src, default, report, table, i, configs, run, cache);
      if t.Some? {
        if c.pattern == "" {
          MergeKeepsValue(host, src, default, report, table, i + 1, configs, t.value, cache, kn);
          assert o == Merge(host, src, default, report, table, i + 1, configs, t.value, cache);
        } else {
          var p := PatternResultOf(host, cache, c);
          if p.err.None? {
            PatternDetected(host, cache, c);
            var cache' := FillCache(host, cache);
            assert Files(host, cache') == files;
            var kw := NameOrKey(table[i].0, c);
            var configs' := if |p.tasks| != 0 then configs[kw := c] else configs;
            assert WritesKey(host.engine, files, table, i, kn) <==> |p.tasks| != 0 && kn == kw;
            if !(p.detected && c.pipelineRun != "") {
              MergeKeepsValue(host, src, default, report, table, i + 1, configs', t.value, cache', kn);
              MergeStops(host, src, default, report, table, i + 1, configs', t.value, cache');
              assert o == Merge(host, src, default, report, table, i + 1, configs', t.value, cache');
            }
          }
        }
      }
    }
  }

  /** A key some reached pattern rule writes holds the rule of the last reached pattern rule that writes it. */
  lemma {:induction false} MergeLastWriterWins<R>(host: Host<R>, src: TemplateSource, default: string, report: TemplateReport, table: ConfigTable, i: nat,
      configs: map<string, Config>, run: string, cache: Option<seq<string>>, kn: string, j: int)
    requires i <= |table|
    ensures var o := Merge(host, src, default, report, table, i, configs, run, cache);
      o.Merged? && i <= j < o.visited && WritesKey(host.engine, Files(host, cache), table, j, kn) &&
      (forall l :: j < l < o.visited ==> !WritesKey(host.engine, Files(host, cache), table, l, kn)) ==>
        kn in o.configs && o.configs[kn] == table[j].1
    decreases |table| - i, 1
  {
    var o := Merge(host, src, default, report, table, i, configs, run, cache);
    var files := Files(host, cache);
    if i < |table| && o.Merged? && i <= j < o.visited && WritesKey(host.engine, files, table, j, kn) &&
       (forall l :: j < l < o.visited ==> !WritesKey(host.engine, files, table, l, kn)) {
      var c := table[i].1;
      var t := TemplateFor(src, default, c);
      if c.pattern == "" {
        assert o == Merge(host, src, default, report, table, i + 1, configs, t.value, cache);
        assert !WritesKey(host.engine, files, table, i, kn);
        MergeLastWriterWins(host, src, default, report, table, i + 1, configs, t.value, cache, kn, j);
      } else {
        LastWriterWinsAtPattern(host, src, default, report, table, i, configs, run, cache, kn, j);
      }
    }
  }

  /** MergeLastWriterWins when the rule at `i` is a pattern rule. */
  lemma {:induction false} LastWriterWinsAtPattern<R>(host: Host<R>, src: TemplateSource, default: string, report: TemplateReport, table: ConfigTable, i: nat,
      configs: map<string, Config>, run: string, cache: Option<seq<string>>, kn: string, j: int)
    requires i < |table| && table[i].1.pattern != ""
    ensures var o := Merge(host, src, default, report, table, i, configs, run, cache);
      o.Merged? && i <= j < o.visited && WritesKey(host.engine, Files(host, cache), table, j, kn) &&
      (forall l :: j < l < o.visited ==> !WritesKey(host.engine, Files(host, cache), table, l, kn)) ==>
        kn in o.configs && o.configs[kn] == table[j].1
    decreases |table| - i, 0
  {
    var o := Merge(host, src, default, report, table, i, configs, run, cache);
    var files := Files(host, cache);
    var c := table[i].1;
    var t := TemplateFor(src, default, c);
    var p := PatternResultOf(host, cache, c);
    if t.Some? && p.err.None? {
      PatternDetected(host, cache, c);
      var cache' := FillCache(host, cache);
      assert Files(host, cache') == files;
      var kw := NameOrKey(table[i].0, c);
      var configs' := if |p.tasks| != 0 then configs[kw := c] else configs;
      if p.detected && c.pipelineRun != "" {
        assert o == Merged(configs', t.value, cache', i + 1);
      } else {
        assert o == Merge(host, src, default, report, table, i + 1, configs', t.value, cache');
        if j == i {
          if o.Merged? && WritesKey(host.engine, files, table, j, kn) {
            assert kn == kw && kn in configs' && configs'[kn] == c;
          }
          MergeKeepsValue(host, src, default, report, table, i + 1, configs', t.value, cache', kn);
        } else {
          MergeLastWriterWins(host, src, default, report, table, i + 1, configs', t.value, cache', kn, j);
        }
      }
    }
  }

  /** Position `j` is the first iteration from `i` on that fails, no earlier one halts the
      loop, and `error` is that iteration's error, a missing template worded as `report` says. */
  predicate FailsFirstAt<R>(host: Host<R>, src: TemplateSource, default: string, report: TemplateReport, table: ConfigTable, i: nat,
                            cache: Option<seq<string>>, error: Error, j: int) {
    && i <= j < |table|
    && (forall l :: i <= l < j ==>
          !StepFails(host, src, default, cache, table[l].1) && !Halts(host.engine, Files(host, cache), table[l].1))
    && StepFails(host, src, default, cache, table[j].1)
    && (TemplateFor(src, default, table[j].1).None? ==> error == MissingTemplateError(report, default, table[j].1))
    && (TemplateFor(src, default, table[j].1).Some? ==>
          error == Wrapped(PatternTasksContext, PatternResultOf(host, cache, table[j].1).err.value))
  }

  /** A failed loop failed at the first failing iteration it reached, with that iteration's error. */
  lemma {:induction false} MergeFailure<R>(host: Host<R>, src: TemplateSource, default: string, report: TemplateReport, table: ConfigTable, i: nat,
      configs: map<string, Config>, run: string, cache: Option<seq<string>>)
    requires i <= |table|
    ensures var o := Merge(host, src, default, report, table, i, configs, run, cache);
      o.MergeFailed? ==> exists j :: FailsFirstAt(host, src, default, report, table, i, cache, o.error, j)
    decreases |table| - i, 1
  {
    if i < |table| {
      var c := table[i].1;
      var t := TemplateFor(src, default, c);
      var o := Merge(host, src, default, report, table, i, configs, run, cache);
      if t.None? {
        assert FailsFirstAt(host, src, default, report, table, i, cache, o.error, i);
      } else if c.pattern == "" {
        assert o == Merge(host, src, default, report, table, i + 1, configs, t.value, cache);
        MergeFailure(host, src, default, report, table, i + 1, configs, t.value, cache);
        if o.MergeFailed? {
          var j :| FailsFirstAt(host, src, default, report, table, i + 1, cache, o.error, j);
          assert !StepFails(host, src, default, cache, c) && !Halts(host.engine, Files(host, cache), c);
          assert FailsFirstAt(host, src, default, report, table, i, cache, o.error, j);
        }
      } else {
        FailureAtPattern(host, src, default, report, table, i, configs, run, cache);
      }
    }
  }

  /** MergeFailure when the rule at `i` is a pattern rule whose template can be read. */
  lemma {:induction false} FailureAtPattern<R>(host: Host<R>, src: TemplateSource, default: string, report: TemplateReport, table: ConfigTable, i: nat,
      configs: map<string, Config>, run: string, cache: Option<seq<string>>)
    requires i < |table| && table[i].1.pattern != "" && TemplateFor(src, default, table[i].1).Some?
    ensures var o := Merge(host, src, default, report, table, i, configs, run, cache);
      o.MergeFailed? ==> exists j :: FailsFirstAt(host, src, default, report, table, i, cache, o.error, j)
    decreases |table| - i, 0
  {
    var c := table[i].1;
    var t := TemplateFor(src, default, c);
    var o := Merge(host, src, default, report, table, i, configs, run, cache);
    var p := PatternResultOf(host, cache, c);
    if p.err.Some? {
      assert FailsFirstAt(host, src, default, report, table, i, cache, o.error, i);
    } else {
      PatternDetected(host, cache, c);
      var cache' := FillCache(host, cache);
      forall c' ensures PatternResultOf(host, cache, c') == PatternResultOf(host, cache', c') {
        PatternResultCacheIrrelevant(host, cache, c');
      }
      assert Files(host, cache') == Files(host, cache);
      var configs' := if |p.tasks| != 0 then configs[NameOrKey(table[i].0, c) := c] else configs;
      if !(p.detected && c.pipelineRun != "") {
        assert o == Merge(host, src, default, report, table, i + 1, configs', t.value, cache');
        MergeFailure(host, src, default, report, table, i + 1, configs', t.value, cache');
        if o.MergeFailed? {
          var j :| FailsFirstAt(host, src, default, report, table, i + 1, cache', o.error, j);
          assert !StepFails(host, src, default, cache, c) && !Halts(host.engine, Files(host, cache), c);
          assert FailsFirstAt(host, src, default, report, table, i, cache, o.error, j);
        }
      }
    }
  }

  /** Conversely, the loop fails when some iteration fails and no earlier one halts it. */
  lemma {:induction false} MergeFailsAt<R>(host: Host<R>, src: TemplateSource, default: string, report: TemplateReport, table: ConfigTable, i: nat,
                                          configs: map<string, Config>, run: string, cache: Option<seq<string>>)
    requires i <= |table|
    ensures (exists j :: i <= j < |table| && StepFails(host, src, default, cache, table[j].1) &&
               forall l :: i <= l < j ==> !Halts(host.engine, Files(host, cache), table[l].1)) ==>
      Merge(host, src, default, report, table, i, configs, run, cache).MergeFailed?
    decreases |table| - i
  {
    if i < |table| {
      var c := table[i].1;
      var t := TemplateFor(src, default, c);
      var o := Merge(host, src, default, report, table, i, configs, run, cache);
      if t.Some? {
        if c.pattern == "" {
          assert o == Merge(host, src, default, report, table, i + 1, configs, t.value, cache);
          MergeFailsAt(host, src, default, report, table, i + 1, configs, t.value, cache);
        } else {
          var p := PatternResultOf(host, cache, c);
          if p.err.None? {
            PatternDetected(host, cache, c);
            var cache' := FillCache(host, cache);
            forall c' ensures PatternResultOf(host, cache, c') == PatternResultOf(host, cache', c') {
              PatternResultCacheIrrelevant(host, cache, c');
            }
            var configs' := if |p.tasks| != 0 then configs[NameOrKey(table[i].0, c) := c] else configs;
            if !(p.detected && c.pipelineRun != "") {
              assert o == Merge(host, src, default, report, table, i + 1, configs', t.value, cache');
              MergeFailsAt(host, src, default, report, table, i + 1, configs', t.value, cache');
            }
          }
        }
      }
    }
  }

  /** The loop as written: a failure over a missing template always shows the default
      template text, so it names the missing template only when that name happens to
      equal the default text. */
  lemma {:induction false} MergeMissingTemplateShowsDefault<R>(host: Host<R>, src: TemplateSource, default: string, table: ConfigTable,
                                                               configs: map<string, Config>, cache: Option<seq<string>>)
    ensures var o := Merge(host, src, default, AsWritten, table, 0, configs, "", cache);
      o.MergeFailed? && o.error.TemplateReadError? ==>
        && o.error.shown == default
        && exists j :: (
             && 0 <= j < |table|
             && TemplateFor(src, default, table[j].1).None?
             && (o.error.shown == table[j].1.pipelineRun <==> default == table[j].1.pipelineRun))
  {
    var o := Merge(host, src, default, AsWritten, table, 0, configs, "", cache);
    MergeFailure(host, src, default, AsWritten, table, 0, configs, "", cache);
    if o.MergeFailed? && o.error.TemplateReadError? {
      var j :| FailsFirstAt(host, src, default, AsWritten, table, 0, cache, o.error, j);
      assert TemplateFor(src, default, table[j].1).None?;
    }
  }

  /** The loop with the error naming the template: a failure over a missing template
      names the template of a rule whose template is missing. */
  lemma {:induction false} MergeNamesMissingTemplate<R>(host: Host<R>, src: TemplateSource, default: string, table: ConfigTable,
                                                        configs: map<string, Config>, cache: Option<seq<string>>)
    ensures var o := Merge(host, src, default, NamesTemplate, table, 0, configs, "", cache);
      o.MergeFailed? && o.error.TemplateReadError? ==>
        exists j :: (
          && 0 <= j < |table|
          && TemplateFor(src, default, table[j].1).None?
          && o.error.shown == table[j].1.pipelineRun)
  {
    var o := Merge(host, src, default, NamesTemplate, table, 0, configs, "", cache);
    MergeFailure(host, src, default, NamesTemplate, table, 0, configs, "", cache);
    if o.MergeFailed? && o.error.TemplateReadError? {
      var j :| FailsFirstAt(host, src, default, NamesTemplate, table, 0, cache, o.error, j);
      assert TemplateFor(src, default, table[j].1).None?;
    }
  }

  /** One rule naming the template "python", which neither the templates directory nor the
      embedded set holds: as written the error shows the default text "kind: PipelineRun";
      naming the template, it shows "python". */
  lemma MissingPythonTemplate()
    ensures var host: Host<int> := Host(Fetched([]), RegexEngine(p => None, (re, f) => false));
            var src := TemplateSource("", _ => None, _ => None);
            var table := [("py", Config("", [], "", "python"))];
            && Merge(host, src, "kind: PipelineRun", AsWritten, table, 0, map[], "", None) ==
                 MergeFailed(TemplateReadError("kind: PipelineRun"), None)
            && Merge(host, src, "kind: PipelineRun", NamesTemplate, table, 0, map[], "", None) ==
                 MergeFailed(TemplateReadError("python"), None)
  {
  }

  /** The loop and Output, from the language selection on. */
  function MergeAndOutput<R>(host: Host<R>, src: TemplateSource, base: string, table: ConfigTable,
                             selected: map<string, Config>): Result<RenderInput>
  {
    match Merge(host, src, base, AsWritten, table, 0, selected, "", None)
    case MergeFailed(e, _) => Err(e)
    case Merged(configs, run, cache, _) => OutputOf(host, cache, table, configs, run)
  }

  /** Detect from start to finish, as a function of the command line and the environment. */
  function DetectSpec<R>(cli: Cli, env: Environment<R>): Result<RenderInput> {
    match SplitOwnerRepo(cli.ownerRepo)
    case Err(e) => Err(e)
    case Ok((owner, repo)) =>
      match env.listLanguages(owner, repo)
      case Err(e) => Err(e)
      case Ok(langs) =>
        match env.loadConfig(cli.autoGenerateYaml)
        case Err(e) => Err(e)
        case Ok(table) =>
          var base := if cli.pipelineRunYaml == "" then Some(env.embeddedPipelineRun) else env.readFile(cli.pipelineRunYaml);
          if base.None? then Err(ReadFileError(cli.pipelineRunYaml))
          else
            MergeAndOutput(Host(env.listFiles(owner, repo, cli.targetRef), env.engine),
                           TemplateSource(cli.templatesLanguageDir, env.readFile, env.embeddedTemplates),
                           base.value, table, LanguageSelection(table, langs))
  }

  /** The pattern-merge and template-selection loop of Detect, over the rule table in its
      iteration order: every iteration resets the template to the default and reads the
      rule's own, language rules go no further, detected pattern rules with tasks are
      stored under their name or key, and the first detected rule with a template stops it. */
  method MergeLoop<R>(ag: AutoGenerate<R>, src: TemplateSource, defaultPipelineRun: string, selected: map<string, Config>)
    returns (configs: map<string, Config>, pipelineRun: string, err: Option<Error>)
    requires ag.Valid()
    modifies ag`filesInRepo, ag`fetches
    ensures ag.Valid()
    ensures old(ag.filesInRepo).Some? ==> ag.fetches == old(ag.fetches)
    ensures var o := Merge(ag.host, src, defaultPipelineRun, AsWritten, ag.configs, 0, selected, "", old(ag.filesInRepo));
      && o.cache == ag.filesInRepo
      && (o.MergeFailed? <==> err.Some?)
      && (o.MergeFailed? ==> o.error == err.value)
      && (o.Merged? ==> o.configs == configs && o.pipelineRun == pipelineRun)
  {
    configs := selected;
    ghost var spec := Merge(ag.host, src, defaultPipelineRun, AsWritten, ag.configs, 0, configs, "", ag.filesInRepo);
    pipelineRun := "";
    var i := 0;
    while i < |ag.configs|
      invariant 0 <= i <= |ag.configs|
      invariant ag.Valid()
      invariant old(ag.filesInRepo).Some? ==> ag.fetches == old(ag.fetches)
      invariant Merge(ag.host, src, defaultPipelineRun, AsWritten, ag.configs, i, configs, pipelineRun, ag.filesInRepo) == spec
    {
      var k := ag.configs[i].0;
      var config := ag.configs[i].1;
      ghost var cache := ag.filesInRepo;
      pipelineRun := defaultPipelineRun;
      if config.pipelineRun != "" {
        var ret := ReadTemplate(src, config.pipelineRun);
        if ret.None? {
          assert spec == MergeFailed(TemplateReadError(pipelineRun), cache);
          return configs, pipelineRun, Some(TemplateReadError(pipelineRun));
        }
        pipelineRun := ret.value;
      }
      assert TemplateFor(src, defaultPipelineRun, config) == Some(pipelineRun);
      if config.pattern == "" {
        assert spec == Merge(ag.host, src, defaultPipelineRun, AsWritten, ag.configs, i + 1, configs, pipelineRun, cache);
        i := i + 1;
        continue;
      }
      var detected, fptasks, e := ag.GetFilePatternTasks(config);
      if e.Some? {
        assert spec == MergeFailed(Wrapped(PatternTasksContext, e.value), ag.filesInRepo);
        return configs, pipelineRun, Some(Wrapped(PatternTasksContext, e.value));
      }
      if config.name != "" {
        k := config.name;
      }
      if |fptasks| != 0 {
        configs := configs[k := config];
      }
      i := i + 1;
      if !detected {
        continue;
      }
      // the first detected rule that names a template wins
      if config.pipelineRun != "" {
        assert spec == Merged(configs, pipelineRun, ag.filesInRepo, i);
        break;
      }
    }
    assert spec.Merged? && spec.configs == configs && spec.pipelineRun == pipelineRun && spec.cache == ag.filesInRepo;
    err := None;
  }

  /** Detect: on success, the selected rules, the task list and the template text for the renderer. */
  method Detect<R>(cli: Cli, env: Environment<R>) returns (r: Result<RenderInput>)
    ensures r == DetectSpec(cli, env)
  {
    var ownerRepo := Split(cli.ownerRepo, '/');
    if |ownerRepo| != 2 {
      return Err(OwnerRepoMissing);
    }
    assert SplitOwnerRepo(cli.ownerRepo) == Ok((ownerRepo[0], ownerRepo[1]));
    var detectLanguages := env.listLanguages(ownerRepo[0], ownerRepo[1]);
    if detectLanguages.Err? {
      return Err(detectLanguages.error);
    }
    var loaded := env.loadConfig(cli.autoGenerateYaml);
    if loaded.Err? {
      return Err(loaded.error);
    }
    var host := Host(env.listFiles(ownerRepo[0], ownerRepo[1], cli.targetRef), env.engine);
    var ag := new AutoGenerate(loaded.value, host);

    var configs := SelectByLanguage(ag.configs, detectLanguages.value);

    var defaultPipelineRun := env.embeddedPipelineRun;
    if cli.pipelineRunYaml != "" {
      var ret := env.readFile(cli.pipelineRunYaml);
      if ret.None? {
        return Err(ReadFileError(cli.pipelineRunYaml));
      }
      defaultPipelineRun := ret.value;
    }
    var src := TemplateSource(cli.templatesLanguageDir, env.readFile, env.embeddedTemplates);
    assert DetectSpec(cli, env) == MergeAndOutput(host, src, defaultPipelineRun, ag.configs, configs);
    var merged, pipelineRun, err := MergeLoop(ag, src, defaultPipelineRun, configs);
    if err.Some? {
      return Err(err.value);
    }
    r := ag.Output(merged, pipelineRun);
  }

  /** The task list Detect renders comes from every rule of the table, in table order:
      all tasks of each language rule, detected or not, and the tasks of each matching
      pattern rule, including those after the rule that stopped the loop. */
  lemma DetectTasksFromAllRules<R>(cli: Cli, env: Environment<R>, owner: string, repo: string, table: ConfigTable)
    requires SplitOwnerRepo(cli.ownerRepo) == Ok((owner, repo))
    requires env.loadConfig(cli.autoGenerateYaml) == Ok(table)
    requires DetectSpec(cli, env).Ok?
    ensures DetectSpec(cli, env).value.tasks ==
      Contributions(env.engine, CachedFiles(env.listFiles(owner, repo, cli.targetRef)), table)
  {
    var langs := env.listLanguages(owner, repo).value;
    var host := Host(env.listFiles(owner, repo, cli.targetRef), env.engine);
    var base := if cli.pipelineRunYaml == "" then Some(env.embeddedPipelineRun) else env.readFile(cli.pipelineRunYaml);
    var src := TemplateSource(cli.templatesLanguageDir, env.readFile, env.embeddedTemplates);
    var selected := LanguageSelection(table, langs);
    MergeCache(host, src, base.value, AsWritten, table, 0, selected, "", None);
    var o := Merge(host, src, base.value, AsWritten, table, 0, selected, "", None);
    AggregateCharacterised(host, o.cache, table);
  }
}
