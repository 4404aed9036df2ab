/** The rule configuration: what each entry of the configuration document holds,
    and the ordered table the pipeline iterates. */
module Rules {
  import opened Results

  datatype Params = Params(name: string, value: string)

  datatype Workspace = Workspace(disabled: bool, name: string)

  datatype Task = Task(name: string, params: seq<Params>, workspace: Workspace, runAfter: seq<string>)

  /** One rule. An empty `pattern` makes it a language rule; an empty
      `pipelineRun` means "no alternate render template". */
  datatype Config = Config(name: string, tasks: seq<Task>, pattern: string, pipelineRun: string)

  /** The loaded configuration, keyed by rule key, in one fixed iteration order. */
  type ConfigTable = seq<(string, Config)>

  /** A table read from a mapping has each key once. */
  predicate DistinctKeys<V>(table: seq<(string, V)>) {
    forall i, j :: 0 <= i < j < |table| ==> table[i].0 != table[j].0
  }

  /** The value a mapping holds under `key` (the first entry with that key). */
  function Lookup<V>(table: seq<(string, V)>, key: string): (r: Option<V>)
    ensures r.Some? <==> exists i :: 0 <= i < |table| && table[i].0 == key
    ensures r.Some? ==> exists i :: 0 <= i < |table| && table[i] == (key, r.value)
    ensures DistinctKeys(table) ==> forall i :: 0 <= i < |table| && table[i].0 == key ==> r == Some(table[i].1)
    decreases |table|
  {
    if table == [] then None
    else if table[0].0 == key then Some(table[0].1)
    else
      var r := Lookup(table[1..], key);
      assert forall i :: 1 <= i < |table| ==> table[i] == table[1..][i - 1];
      r
  }

  /** The identity a rule is reported under: its `name` when set, otherwise its key. */
  function NameOrKey(key: string, c: Config): string {
    if c.name != "" then c.name else key
  }

  /** The names of a task list, in declared order. */
  function TaskNames(ts: seq<Task>): seq<string> {
    seq(|ts|, i requires 0 <= i < |ts| => ts[i].name)
  }
}
