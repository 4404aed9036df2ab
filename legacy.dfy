/** The first version of the tool: a rule table without patterns or templates,
    a task list that concatenates every rule's tasks, and the main program's
    lower-cased language selection. */
module Legacy {
  import opened Results
  import opened Strings
  import Rules

  /** A task of the first version: the workspace is a plain flag. */
  datatype Task = Task(name: string, params: seq<Rules.Params>, workspace: bool)

  /** A rule of the first version holds only its tasks. */
  datatype Config = Config(tasks: seq<Task>)

  /** The loaded rule table, keyed by language, in one fixed iteration order. */
  type Table = seq<(string, Config)>

  /** The task names of every rule, rule after rule in table order, each rule's in declared order. */
  function AllTaskNames(table: Table): seq<string>
    decreases |table|
  {
    if table == [] then []
    else AllTaskNames(table[..|table| - 1]) + Names(table[|table| - 1].1.tasks)
  }

  /** The names of a task list, in declared order. */
  function Names(ts: seq<Task>): seq<string> {
    seq(|ts|, i requires 0 <= i < |ts| => ts[i].name)
  }

  /** The number of tasks the table declares, over all rules. */
  function TaskCount(table: Table): nat
    decreases |table|
  {
    if table == [] then 0 else TaskCount(table[1..]) + |table[0].1.tasks|
  }

  /** The task list of two tables read one after the other is the two lists one after the other. */
  lemma {:induction false} AllTaskNamesAppend(a: Table, b: Table)
    ensures AllTaskNames(a + b) == AllTaskNames(a) + AllTaskNames(b)
    decreases |b|
  {
    if b == [] {
      assert a + b == a;
    } else {
      var n := |b| - 1;
      assert (a + b)[..|a + b| - 1] == a + b[..n];
      assert (a + b)[|a + b| - 1] == b[n];
      AllTaskNamesAppend(a, b[..n]);
    }
  }

  /** Nothing is dropped or merged: the task list has one entry per declared task, duplicates included. */
  lemma {:induction false} AllTaskNamesLength(table: Table)
    ensures |AllTaskNames(table)| == TaskCount(table)
    decreases |table|
  {
    if table != [] {
      AllTaskNamesLength(table[1..]);
      AllTaskNamesAppend([table[0]], table[1..]);
      assert [table[0]] + table[1..] == table;
      assert [table[0]][..0] == [];
    }
  }

  /** A name is in the task list iff some rule of the table declares a task with that name. */
  lemma {:induction false} AllTaskNamesMembers(table: Table, n: string)
    ensures n in AllTaskNames(table) <==>
      exists i, k :: 0 <= i < |table| && 0 <= k < |table[i].1.tasks| && table[i].1.tasks[k].name == n
    decreases |table|
  {
    if table != [] {
      var last := |table| - 1;
      var init := table[..last];
      AllTaskNamesMembers(init, n);
      var ts := table[last].1.tasks;
      if n in Names(ts) {
        var k :| 0 <= k < |ts| && Names(ts)[k] == n;
        assert ts[k].name == n;
      }
      if exists i, k :: 0 <= i < |table| && 0 <= k < |table[i].1.tasks| && table[i].1.tasks[k].name == n {
        var i, k :| 0 <= i < |table| && 0 <= k < |table[i].1.tasks| && table[i].1.tasks[k].name == n;
        if i < last {
          assert init[i] == table[i];
        } else {
          assert Names(ts)[k] == n;
        }
      }
      if n in AllTaskNames(init) {
        var i, k :| 0 <= i < |init| && 0 <= k < |init[i].1.tasks| && init[i].1.tasks[k].name == n;
        assert table[i] == init[i];
      }
    }
  }

  /** GetTasks: appends the name of every task of every rule, in iteration order. */
  method GetTasks(table: Table) returns (tasks: seq<string>)
    ensures tasks == AllTaskNames(table)
  {
    tasks := [];
    var i := 0;
    while i < |table|
      invariant 0 <= i <= |table|
      invariant tasks == AllTaskNames(table[..i])
    {
      var ts := table[i].1.tasks;
      ghost var before := tasks;
      var j := 0;
      while j < |ts|
        invariant 0 <= j <= |ts|
        invariant tasks == before + Names(ts[..j])
      {
        tasks := tasks + [ts[j].name];
        j := j + 1;
      }
      assert ts[..j] == ts;
      assert table[..i + 1][..i] == table[..i];
      i := i + 1;
    }
    assert table[..i] == table;
  }

  /** main's language loop: each detected language, lower-cased, that is a rule key
      stores that rule under the lower-cased key. */
  method SelectLanguages(table: Table, langs: seq<string>) returns (configs: map<string, Config>)
    ensures forall kl :: kl in configs <==>
      (exists j :: 0 <= j < |langs| && ToLower(langs[j]) == kl) && Rules.Lookup(table, kl).Some?
    ensures forall kl :: kl in configs ==> configs[kl] == Rules.Lookup(table, kl).value
    ensures Rules.DistinctKeys(table) ==>
      forall i :: 0 <= i < |table| && table[i].0 in configs ==> configs[table[i].0] == table[i].1
  {
    configs := map[];
    var i := 0;
    while i < |langs|
      invariant 0 <= i <= |langs|
      invariant forall kl :: kl in configs <==>
        (exists j :: 0 <= j < i && ToLower(langs[j]) == kl) && Rules.Lookup(table, kl).Some?
      invariant forall kl :: kl in configs ==> configs[kl] == Rules.Lookup(table, kl).value
    {
      var kl := ToLower(langs[i]);
      var found := Rules.Lookup(table, kl);
      if found.Some? {
        configs := configs[kl := found.value];
      }
      i := i + 1;
    }
  }

  /** What Output hands the template engine: the selected rules and the whole task list. */
  datatype RenderData = RenderData(configs: map<string, Config>, tasks: seq<string>)

  method Output(table: Table, configs: map<string, Config>) returns (data: RenderData)
    ensures data.configs == configs
    ensures data.tasks == AllTaskNames(table)
  {
    var tasks := GetTasks(table);
    data := RenderData(configs, tasks);
  }

  /** Go's `int` on a 64-bit platform. */
  newtype Int64 = x: int | -0x8000_0000_0000_0000 <= x < 0x8000_0000_0000_0000

  const TwoTo64: int := 0x1_0000_0000_0000_0000

  /** The template helper `add`: the sum, wrapped around into 64 bits as Go's addition does. */
  function Add(a: Int64, b: Int64): (r: Int64)
    ensures -0x8000_0000_0000_0000 <= a as int + b as int < 0x8000_0000_0000_0000 ==> r as int == a as int + b as int
    ensures (r as int - (a as int + b as int)) % TwoTo64 == 0
  {
    var s := a as int + b as int;
    if s >= 0x8000_0000_0000_0000 then (s - TwoTo64) as Int64
    else if s < -0x8000_0000_0000_0000 then (s + TwoTo64) as Int64
    else s as Int64
  }
}
