/** Automation tasks (vt/automation): their parameters, the built-in plans, and the numbering of tasks. */
module AutomationTasks {
  import opened Prelude
  import opened Text

  datatype TaskState = NotStarted | Running | Done

  /** The names of tasks, as the source spells them. */
  datatype Name =
    | HorizontalReshardingTask | VerticalSplitTask
    | CopySchemaShardTask | MigrateServedFromTask | MigrateServedTypesTask | RebuildKeyspaceGraph | SplitCloneTask
    | SplitDiffTask | VerticalSplitCloneTask | VerticalSplitDiffTask | WaitForFilteredReplicationTask
    | OtherName(text: string)

  /** The names of parameters: `keyspace`, `source_shard_list` and so on in the source. */
  datatype Key =
    | Cells | ChunkCount | DestKeyspace | DestKeyspaceAndShard | DestShard | DestShardList | ExcludeTables
    | Keyspace | MaxDelay | MaxReplicationLag | MaxTps | MinHealthyRdonlyTablets | MinRowsPerChunk | Offline | Online
    | Reverse | Shard | ShardList | SourceKeyspace | SourceKeyspaceAndShard | SourceShard | SourceShardList
    | Tables | TypeKey | VtctldEndpoint | VtworkerEndpoint | WriteQueryMaxRows | WriteQueryMaxSize
    | OtherKey(text: string)

  type Parameters = map<Key, string>

  datatype Task = Task(id: string, name: Name, parameters: Parameters, state: TaskState, output: string,
      error: string) {
    /** Done without an error. */
    predicate Clean() { state.Done? && error == "" }
  }

  type Container = seq<Task>

  function NewTask(name: Name, parameters: Parameters): Task { Task("", name, parameters, NotStarted, "", "") }

  // ------------------------------------------------------------------------- parameters

  datatype Spec = Spec(required: seq<Key>, optional: seq<Key>, composite: bool)

  /** defaultTaskCreator: the tasks there are, and the parameters they take. */
  function SpecOf(name: Name): Option<Spec> {
    match name
    case HorizontalReshardingTask =>
      Some(Spec([Keyspace, SourceShardList, DestShardList, VtctldEndpoint, VtworkerEndpoint],
                [ExcludeTables, MinHealthyRdonlyTablets], true))
    case VerticalSplitTask =>
      Some(Spec([SourceKeyspace, DestKeyspace, ShardList, Tables, VtctldEndpoint, VtworkerEndpoint],
                [MinHealthyRdonlyTablets], true))
    case CopySchemaShardTask =>
      Some(Spec([SourceKeyspaceAndShard, DestKeyspaceAndShard, VtctldEndpoint], [Tables, ExcludeTables], false))
    case MigrateServedFromTask =>
      Some(Spec([DestKeyspace, Shard, TypeKey, VtctldEndpoint], [Cells, Reverse], false))
    case MigrateServedTypesTask =>
      Some(Spec([Keyspace, SourceShard, TypeKey, VtctldEndpoint], [Cells, Reverse], false))
    case RebuildKeyspaceGraph => Some(Spec([Keyspace, VtctldEndpoint], [Cells], false))
    case SplitCloneTask =>
      Some(Spec([Keyspace, SourceShard, VtworkerEndpoint],
                [Online, Offline, ExcludeTables, ChunkCount, MinRowsPerChunk, WriteQueryMaxRows, WriteQueryMaxSize,
                 MinHealthyRdonlyTablets, MaxTps, MaxReplicationLag], false))
    case SplitDiffTask =>
      Some(Spec([Keyspace, DestShard, VtworkerEndpoint], [ExcludeTables, MinHealthyRdonlyTablets], false))
    case VerticalSplitCloneTask =>
      Some(Spec([DestKeyspace, Shard, Tables, VtworkerEndpoint],
                [Online, Offline, ChunkCount, MinRowsPerChunk, WriteQueryMaxRows, WriteQueryMaxSize,
                 MinHealthyRdonlyTablets, MaxTps, MaxReplicationLag], false))
    case VerticalSplitDiffTask =>
      Some(Spec([DestKeyspace, Shard, VtworkerEndpoint], [MinHealthyRdonlyTablets], false))
    case WaitForFilteredReplicationTask =>
      Some(Spec([Keyspace, Shard, MaxDelay, VtctldEndpoint], [], false))
    case OtherName(_) => None
  }

  /** Every required parameter is given, and every given one is required or optional. */
  predicate ValidParameters(spec: Spec, parameters: Parameters) {
    && (forall p :: p in spec.required ==> p in parameters)
    && (forall p :: p in parameters ==> p in spec.required || p in spec.optional)
  }

  predicate ValidTask(t: Task) { SpecOf(t.name).Some? && ValidParameters(SpecOf(t.name).value, t.parameters) }

  method ValidateParameters(spec: Spec, parameters: Parameters) returns (ok: bool)
    ensures ok <==> ValidParameters(spec, parameters)
  {
    var validParams: set<Key> := {};
    var missing := false;
    for i := 0 to |spec.required|
      invariant validParams <= (set p | p in spec.required)
          && (missing <==> exists k :: 0 <= k < i && spec.required[k] !in parameters)
      invariant !missing ==> forall k :: 0 <= k < i ==> spec.required[k] in validParams
    {
      if spec.required[i] in parameters {
        validParams := validParams + {spec.required[i]};
      } else {
        missing := true;
      }
    }
    if missing {
      return false;
    }
    assert forall p :: p in validParams <==> p in spec.required;
    for i := 0 to |spec.optional|
      invariant forall p :: p in validParams <==> p in spec.required || p in spec.optional[..i]
    {
      validParams := validParams + {spec.optional[i]};
    }
    assert spec.optional[..|spec.optional|] == spec.optional;
    var todo := parameters.Keys;
    while todo != {}
      invariant todo <= parameters.Keys && forall p :: p in parameters && p !in todo ==> p in validParams
      decreases todo
    {
      var p :| p in todo;
      if p !in validParams {
        return false;
      }
      todo := todo - {p};
    }
    return true;
  }

  // ------------------------------------------------------------------------------ plans

  /** Go's map lookup: the empty string for a missing key. */
  function Param(parameters: Parameters, key: Key): string { if key in parameters then parameters[key] else "" }

  function KeyspaceShard(keyspace: string, shard: string): string { keyspace + "/" + shard }

  /** One task per shard, in order. */
  function PerShard(shards: seq<string>, make: string -> Task): (tasks: Container)
    ensures |tasks| == |shards| && forall i :: 0 <= i < |shards| ==> tasks[i] == make(shards[i])
  {
    if shards == [] then [] else [make(shards[0])] + PerShard(shards[1..], make)
  }

  /** One container per shard, each with a single task. */
  function Singles(shards: seq<string>, make: string -> Task): (cs: seq<Container>)
    ensures |cs| == |shards| && forall i :: 0 <= i < |shards| ==> cs[i] == [make(shards[i])]
  {
    if shards == [] then [] else [[make(shards[0])]] + Singles(shards[1..], make)
  }

  // The tasks of horizontal resharding, for one shard each.

  function CopySchema(p: Parameters): string -> Task {
    var sources := Split(Param(p, SourceShardList), ',');
    (shard: string) =>
      NewTask(CopySchemaShardTask,
              map[SourceKeyspaceAndShard := KeyspaceShard(Param(p, Keyspace), sources[0]),
                  DestKeyspaceAndShard := KeyspaceShard(Param(p, Keyspace), shard),
                  ExcludeTables := Param(p, ExcludeTables), VtctldEndpoint := Param(p, VtctldEndpoint)])
  }

  function SplitClone(p: Parameters): string -> Task {
    (shard: string) =>
      NewTask(SplitCloneTask,
              map[Keyspace := Param(p, Keyspace), SourceShard := shard, VtworkerEndpoint := Param(p, VtworkerEndpoint),
                  ExcludeTables := Param(p, ExcludeTables),
                    MinHealthyRdonlyTablets := Param(p, MinHealthyRdonlyTablets)])
  }

  function WaitReplication(keyspace: string, p: Parameters): string -> Task {
    (shard: string) =>
      NewTask(WaitForFilteredReplicationTask,
              map[Keyspace := keyspace, Shard := shard, MaxDelay := "30s", VtctldEndpoint := Param(p, VtctldEndpoint)])
  }

  function SplitDiff(p: Parameters): string -> Task {
    (shard: string) =>
      NewTask(SplitDiffTask,
              map[Keyspace := Param(p, Keyspace), DestShard := shard, VtworkerEndpoint := Param(p, VtworkerEndpoint),
                  ExcludeTables := Param(p, ExcludeTables),
                    MinHealthyRdonlyTablets := Param(p, MinHealthyRdonlyTablets)])
  }

  function MigrateTypes(p: Parameters, served: string): string -> Task {
    (shard: string) =>
      NewTask(MigrateServedTypesTask,
              map[Keyspace := Param(p, Keyspace), SourceShard := shard, TypeKey := served,
                VtctldEndpoint := Param(p, VtctldEndpoint)])
  }

  /** Copy the schema, clone, wait, compare shard by shard, then migrate read-only, replica and master traffic. */
  function HorizontalPlan(p: Parameters): seq<Container> {
    var sources, dests := Split(Param(p, SourceShardList), ','), Split(Param(p, DestShardList), ',');
    [PerShard(dests, CopySchema(p)), PerShard(sources, SplitClone(p)),
      PerShard(dests, WaitReplication(Param(p, Keyspace), p))]
    + Singles(dests, SplitDiff(p))
    + [PerShard(sources, MigrateTypes(p, "rdonly")), PerShard(sources, MigrateTypes(p, "replica")),
      PerShard(sources, MigrateTypes(p, "master"))]
  }

  // The tasks of a vertical split, for one shard each.

  function CopyTables(p: Parameters): string -> Task {
    (shard: string) =>
      CopyTask(KeyspaceShard(Param(p, SourceKeyspace), shard), KeyspaceShard(Param(p, DestKeyspace), shard),
               Param(p, VtctldEndpoint), Param(p, Tables))
  }

  function CopyTask(source: string, dest: string, vtctld: string, tables: string): Task {
    NewTask(CopySchemaShardTask, map[SourceKeyspaceAndShard := source, DestKeyspaceAndShard := dest,
      VtctldEndpoint := vtctld, Tables := tables])
  }

  function VerticalClone(p: Parameters): string -> Task {
    (shard: string) =>
      NewTask(VerticalSplitCloneTask,
              map[DestKeyspace := Param(p, DestKeyspace), Shard := shard, Tables := Param(p, Tables),
                  VtworkerEndpoint := Param(p, VtworkerEndpoint),
                    MinHealthyRdonlyTablets := Param(p, MinHealthyRdonlyTablets)])
  }

  function VerticalDiff(p: Parameters): string -> Task {
    (shard: string) =>
      NewTask(VerticalSplitDiffTask,
              map[DestKeyspace := Param(p, DestKeyspace), Shard := shard,
                VtworkerEndpoint := Param(p, VtworkerEndpoint),
                  MinHealthyRdonlyTablets := Param(p, MinHealthyRdonlyTablets)])
  }

  function MigrateFrom(p: Parameters, served: string): string -> Task {
    (shard: string) =>
      NewTask(MigrateServedFromTask,
              map[DestKeyspace := Param(p, DestKeyspace), Shard := shard, TypeKey := served,
                VtctldEndpoint := Param(p, VtctldEndpoint)])
  }

  function VerticalPlan(p: Parameters): seq<Container> {
    var shards := Split(Param(p, ShardList), ',');
    [PerShard(shards, CopyTables(p)), PerShard(shards, VerticalClone(p)),
      PerShard(shards, WaitReplication(Param(p, DestKeyspace), p))]
    + Singles(shards, VerticalDiff(p))
    + [PerShard(shards, MigrateFrom(p, "rdonly")), PerShard(shards, MigrateFrom(p, "replica")),
      PerShard(shards, MigrateFrom(p, "master"))]
  }

  function PlanOf(name: Name, p: Parameters): seq<Container> {
    if name == HorizontalReshardingTask then HorizontalPlan(p) else VerticalPlan(p)
  }

  /** A task the plans may emit: a valid leaf that has not started and has no id yet. */
  predicate ProperLeaf(t: Task) {
    ValidTask(t) && !SpecOf(t.name).value.composite && t.state.NotStarted? && t.error == "" && t.id == ""
  }

  predicate ProperLeaves(cs: seq<Container>) {
    forall i, j :: 0 <= i < |cs| && 0 <= j < |cs[i]| ==> ProperLeaf(cs[i][j])
  }

  // Each task maker gives proper leaves.

  lemma CopySchemaProper(p: Parameters, shard: string)
    ensures ProperLeaf(CopySchema(p)(shard))
  {
    hide KeyspaceShard, Param;
  }

  lemma SplitCloneProper(p: Parameters, shard: string)
    ensures ProperLeaf(SplitClone(p)(shard))
  {
  }

  lemma WaitProper(keyspace: string, p: Parameters, shard: string)
    ensures ProperLeaf(WaitReplication(keyspace, p)(shard))
  {
  }

  lemma SplitDiffProper(p: Parameters, shard: string)
    ensures ProperLeaf(SplitDiff(p)(shard))
  {
  }

  lemma MigrateTypesProper(p: Parameters, served: string, shard: string)
    ensures ProperLeaf(MigrateTypes(p, served)(shard))
  {
  }

  lemma CopyTaskProper(source: string, dest: string, vtctld: string, tables: string)
    ensures ProperLeaf(CopyTask(source, dest, vtctld, tables))
  {
  }

  lemma CopyTablesProper(p: Parameters, shard: string)
    ensures ProperLeaf(CopyTables(p)(shard))
  {
    CopyTaskProper(KeyspaceShard(Param(p, SourceKeyspace), shard), KeyspaceShard(Param(p, DestKeyspace), shard),
                   Param(p, VtctldEndpoint), Param(p, Tables));
    hide CopyTask, ProperLeaf, KeyspaceShard, Param;
  }

  lemma VerticalCloneProper(p: Parameters, shard: string)
    ensures ProperLeaf(VerticalClone(p)(shard))
  {
  }

  lemma VerticalDiffProper(p: Parameters, shard: string)
    ensures ProperLeaf(VerticalDiff(p)(shard))
  {
  }

  lemma MigrateFromProper(p: Parameters, served: string, shard: string)
    ensures ProperLeaf(MigrateFrom(p, served)(shard))
  {
  }

  predicate AllProper(tasks: Container) { forall i :: 0 <= i < |tasks| ==> ProperLeaf(tasks[i]) }

  lemma PerShardProper(shards: seq<string>, make: string -> Task)
    requires forall shard :: ProperLeaf(make(shard))
    ensures AllProper(PerShard(shards, make)) && ProperLeaves(Singles(shards, make))
  {
    hide ProperLeaf;
  }

  /** A plan: three containers, the comparisons shard by shard, three migrations. */
  lemma AssembledProper(a: Container, b: Container, c: Container, singles: seq<Container>, d: Container, e: Container,
      f: Container)
    requires AllProper(a) && AllProper(b) && AllProper(c) && ProperLeaves(singles) && AllProper(d) && AllProper(e)
        && AllProper(f)
    ensures ProperLeaves([a, b, c] + singles + [d, e, f])
  {
    hide ProperLeaf;
    var cs := [a, b, c] + singles + [d, e, f];
    forall i | 0 <= i < |cs| ensures AllProper(cs[i]) {
      assert cs[i] == if i < 3 then [a, b, c][i] else if i < 3 + |singles| then singles[i - 3]
        else [d, e, f][i - 3 - |singles|];
    }
  }

  /** Every task of the built-in plans is a known leaf with valid parameters, whatever the parameters of the plan and
      however many shards they list. */
  lemma PlansAreProper(name: Name, p: Parameters)
    ensures ProperLeaves(PlanOf(name, p))
  {
    hide ProperLeaf, ProperLeaves, AllProper, PerShard, Singles, Split, Param, CopySchema, SplitClone, WaitReplication,
      SplitDiff, MigrateTypes,
      CopyTables, VerticalClone, VerticalDiff, MigrateFrom;
    if name == HorizontalReshardingTask {
      HorizontalProper(p);
    } else {
      VerticalProper(p);
    }
  }

  lemma HorizontalProper(p: Parameters)
    ensures ProperLeaves(HorizontalPlan(p))
  {
    hide ProperLeaf, ProperLeaves, AllProper, PerShard, Singles, Split, Param, CopySchema, SplitClone, WaitReplication,
      SplitDiff, MigrateTypes;
    var sources, dests := Split(Param(p, SourceShardList), ','), Split(Param(p, DestShardList), ',');
    var keyspace := Param(p, Keyspace);
    forall shard ensures ProperLeaf(CopySchema(p)(shard)) { CopySchemaProper(p, shard); }
    forall shard ensures ProperLeaf(SplitClone(p)(shard)) { SplitCloneProper(p, shard); }
    forall shard ensures ProperLeaf(WaitReplication(keyspace, p)(shard)) { WaitProper(keyspace, p, shard); }
    forall shard ensures ProperLeaf(SplitDiff(p)(shard)) { SplitDiffProper(p, shard); }
    forall served, shard ensures ProperLeaf(MigrateTypes(p, served)(shard)) { MigrateTypesProper(p, served, shard); }
    PerShardProper(dests, CopySchema(p));
    PerShardProper(sources, SplitClone(p));
    PerShardProper(dests, WaitReplication(keyspace, p));
    PerShardProper(dests, SplitDiff(p));
    PerShardProper(sources, MigrateTypes(p, "rdonly"));
    PerShardProper(sources, MigrateTypes(p, "replica"));
    PerShardProper(sources, MigrateTypes(p, "master"));
    AssembledProper(PerShard(dests, CopySchema(p)), PerShard(sources, SplitClone(p)),
      PerShard(dests, WaitReplication(keyspace, p)),
                    Singles(dests, SplitDiff(p)), PerShard(sources, MigrateTypes(p, "rdonly")),
                      PerShard(sources, MigrateTypes(p, "replica")),
                    PerShard(sources, MigrateTypes(p, "master")));
  }

  lemma VerticalProper(p: Parameters)
    ensures ProperLeaves(VerticalPlan(p))
  {
    hide ProperLeaf, ProperLeaves, AllProper, PerShard, Singles, Split, Param, CopyTables, VerticalClone,
      WaitReplication, VerticalDiff, MigrateFrom;
    var shards, keyspace := Split(Param(p, ShardList), ','), Param(p, DestKeyspace);
    forall shard ensures ProperLeaf(CopyTables(p)(shard)) { CopyTablesProper(p, shard); }
    forall shard ensures ProperLeaf(VerticalClone(p)(shard)) { VerticalCloneProper(p, shard); }
    forall shard ensures ProperLeaf(WaitReplication(keyspace, p)(shard)) { WaitProper(keyspace, p, shard); }
    forall shard ensures ProperLeaf(VerticalDiff(p)(shard)) { VerticalDiffProper(p, shard); }
    forall served, shard ensures ProperLeaf(MigrateFrom(p, served)(shard)) { MigrateFromProper(p, served, shard); }
    PerShardProper(shards, CopyTables(p));
    PerShardProper(shards, VerticalClone(p));
    PerShardProper(shards, WaitReplication(keyspace, p));
    PerShardProper(shards, VerticalDiff(p));
    PerShardProper(shards, MigrateFrom(p, "rdonly"));
    PerShardProper(shards, MigrateFrom(p, "replica"));
    PerShardProper(shards, MigrateFrom(p, "master"));
    AssembledProper(PerShard(shards, CopyTables(p)), PerShard(shards, VerticalClone(p)),
      PerShard(shards, WaitReplication(keyspace, p)),
                    Singles(shards, VerticalDiff(p)), PerShard(shards, MigrateFrom(p, "rdonly")),
                      PerShard(shards, MigrateFrom(p, "replica")),
                    PerShard(shards, MigrateFrom(p, "master")));
  }

  // What the plans say, by position and parameter.

  predicate Sets(t: Task, key: Key, value: string) { key in t.parameters && t.parameters[key] == value }

  /** A task that passes a parameter of the plan on, empty if the plan has none. */
  predicate Passes(t: Task, key: Key, p: Parameters, from: Key) {
    && key in t.parameters
    && (from in p ==> t.parameters[key] == p[from])
    && (from !in p ==> t.parameters[key] == "")
  }

  /** A new task of the given kind with exactly these parameters. */
  predicate Asks(t: Task, name: Name, keys: set<Key>) {
    t.id == "" && t.name == name && t.state.NotStarted? && t.output == "" && t.error == "" && t.parameters.Keys == keys
  }

  /** The copy of one shard's schema: from the first source shard to this destination shard. */
  predicate CopiesSchema(t: Task, p: Parameters, source: string, dest: string) {
    && Asks(t, CopySchemaShardTask, {SourceKeyspaceAndShard, DestKeyspaceAndShard, ExcludeTables, VtctldEndpoint})
    && Sets(t, SourceKeyspaceAndShard, source) && Sets(t, DestKeyspaceAndShard, dest)
    && Passes(t, ExcludeTables, p, ExcludeTables) && Passes(t, VtctldEndpoint, p, VtctldEndpoint)
  }

  /** Cloning one source shard. */
  predicate Clones(t: Task, p: Parameters, shard: string) {
    && Asks(t, SplitCloneTask, {Keyspace, SourceShard, VtworkerEndpoint, ExcludeTables, MinHealthyRdonlyTablets})
    && Passes(t, Keyspace, p, Keyspace) && Sets(t, SourceShard, shard)
    && Passes(t, VtworkerEndpoint, p, VtworkerEndpoint) && Passes(t, ExcludeTables, p, ExcludeTables)
    && Passes(t, MinHealthyRdonlyTablets, p, MinHealthyRdonlyTablets)
  }

  /** Waiting until one shard of the given keyspace has caught up to within thirty seconds. */
  predicate Waits(t: Task, p: Parameters, keyspace: Key, shard: string) {
    && Asks(t, WaitForFilteredReplicationTask, {Keyspace, Shard, MaxDelay, VtctldEndpoint})
    && Passes(t, Keyspace, p, keyspace) && Sets(t, Shard, shard) && Sets(t, MaxDelay, "30s")
    && Passes(t, VtctldEndpoint, p, VtctldEndpoint)
  }

  /** Comparing one destination shard with its source. */
  predicate Compares(t: Task, p: Parameters, shard: string) {
    && Asks(t, SplitDiffTask, {Keyspace, DestShard, VtworkerEndpoint, ExcludeTables, MinHealthyRdonlyTablets})
    && Passes(t, Keyspace, p, Keyspace) && Sets(t, DestShard, shard)
    && Passes(t, VtworkerEndpoint, p, VtworkerEndpoint) && Passes(t, ExcludeTables, p, ExcludeTables)
    && Passes(t, MinHealthyRdonlyTablets, p, MinHealthyRdonlyTablets)
  }

  /** Moving the traffic of one kind off one source shard. */
  predicate Migrates(t: Task, p: Parameters, served: string, shard: string) {
    && Asks(t, MigrateServedTypesTask, {Keyspace, SourceShard, TypeKey, VtctldEndpoint})
    && Passes(t, Keyspace, p, Keyspace) && Sets(t, SourceShard, shard) && Sets(t, TypeKey, served)
    && Passes(t, VtctldEndpoint, p, VtctldEndpoint)
  }

  /** The copy of the tables that move, from the source keyspace to the destination keyspace. */
  predicate CopiesTables(t: Task, p: Parameters, shard: string) {
    && Asks(t, CopySchemaShardTask, {SourceKeyspaceAndShard, DestKeyspaceAndShard, VtctldEndpoint, Tables})
    && Sets(t, SourceKeyspaceAndShard, Param(p, SourceKeyspace) + "/" + shard)
    && Sets(t, DestKeyspaceAndShard, Param(p, DestKeyspace) + "/" + shard)
    && Passes(t, VtctldEndpoint, p, VtctldEndpoint) && Passes(t, Tables, p, Tables)
  }

  predicate ClonesTables(t: Task, p: Parameters, shard: string) {
    && Asks(t, VerticalSplitCloneTask, {DestKeyspace, Shard, Tables, VtworkerEndpoint, MinHealthyRdonlyTablets})
    && Passes(t, DestKeyspace, p, DestKeyspace) && Sets(t, Shard, shard) && Passes(t, Tables, p, Tables)
    && Passes(t, VtworkerEndpoint, p, VtworkerEndpoint)
    && Passes(t, MinHealthyRdonlyTablets, p, MinHealthyRdonlyTablets)
  }

  predicate ComparesTables(t: Task, p: Parameters, shard: string) {
    && Asks(t, VerticalSplitDiffTask, {DestKeyspace, Shard, VtworkerEndpoint, MinHealthyRdonlyTablets})
    && Passes(t, DestKeyspace, p, DestKeyspace) && Sets(t, Shard, shard)
    && Passes(t, VtworkerEndpoint, p, VtworkerEndpoint)
    && Passes(t, MinHealthyRdonlyTablets, p, MinHealthyRdonlyTablets)
  }

  predicate MigratesTables(t: Task, p: Parameters, served: string, shard: string) {
    && Asks(t, MigrateServedFromTask, {DestKeyspace, Shard, TypeKey, VtctldEndpoint})
    && Passes(t, DestKeyspace, p, DestKeyspace) && Sets(t, Shard, shard) && Sets(t, TypeKey, served)
    && Passes(t, VtctldEndpoint, p, VtctldEndpoint)
  }

  // Each task maker gives what it stands for.

  lemma CopySchemaIs(p: Parameters, shard: string)
    ensures var k := Param(p, Keyspace) + "/";
            CopiesSchema(CopySchema(p)(shard), p, k + Split(Param(p, SourceShardList), ',')[0], k + shard)
  {
    hide Split;
  }

  lemma SplitCloneIs(p: Parameters, shard: string)
    ensures Clones(SplitClone(p)(shard), p, shard)
  {
  }

  lemma WaitIs(p: Parameters, keyspace: Key, shard: string)
    ensures Waits(WaitReplication(Param(p, keyspace), p)(shard), p, keyspace, shard)
  {
  }

  lemma SplitDiffIs(p: Parameters, shard: string)
    ensures Compares(SplitDiff(p)(shard), p, shard)
  {
  }

  lemma MigrateTypesIs(p: Parameters, served: string, shard: string)
    ensures Migrates(MigrateTypes(p, served)(shard), p, served, shard)
  {
  }

  lemma CopyTaskIs(source: string, dest: string, p: Parameters)
    ensures var t := CopyTask(source, dest, Param(p, VtctldEndpoint), Param(p, Tables));
            && Asks(t, CopySchemaShardTask, {SourceKeyspaceAndShard, DestKeyspaceAndShard, VtctldEndpoint, Tables})
            && Sets(t, SourceKeyspaceAndShard, source) && Sets(t, DestKeyspaceAndShard, dest)
            && Passes(t, VtctldEndpoint, p, VtctldEndpoint) && Passes(t, Tables, p, Tables)
  {
  }

  lemma CopyTablesIs(p: Parameters, shard: string)
    ensures CopiesTables(CopyTables(p)(shard), p, shard)
  {
    CopyTaskIs(KeyspaceShard(Param(p, SourceKeyspace), shard), KeyspaceShard(Param(p, DestKeyspace), shard), p);
    hide CopyTask;
  }

  lemma VerticalCloneIs(p: Parameters, shard: string)
    ensures ClonesTables(VerticalClone(p)(shard), p, shard)
  {
  }

  lemma VerticalDiffIs(p: Parameters, shard: string)
    ensures ComparesTables(VerticalDiff(p)(shard), p, shard)
  {
  }

  lemma MigrateFromIs(p: Parameters, served: string, shard: string)
    ensures MigratesTables(MigrateFrom(p, served)(shard), p, served, shard)
  {
  }

  /** A plan has three containers, then one for each comparison, then three. */
  lemma AssembledAt(a: Container, b: Container, c: Container, singles: seq<Container>, d: Container, e: Container,
      f: Container)
    ensures var plan, n := [a, b, c] + singles + [d, e, f], |singles|;
            && |plan| == n + 6 && plan[0] == a && plan[1] == b && plan[2] == c
            && plan[n + 3] == d && plan[n + 4] == e && plan[n + 5] == f
            && plan[3..n + 3] == singles
  {
  }

  /** A container with one task for every shard, in order, that fits it. */
  ghost predicate OnePerShard(tasks: Container, shards: seq<string>, fits: (Task, string) -> bool) {
    |tasks| == |shards| && forall i :: 0 <= i < |shards| ==> fits(tasks[i], shards[i])
  }

  /** One container for every shard, in order, each with a single task. */
  ghost predicate OneByOne(cs: seq<Container>, shards: seq<string>, fits: (Task, string) -> bool) {
    |cs| == |shards| && forall i :: 0 <= i < |shards| ==> |cs[i]| == 1 && fits(cs[i][0], shards[i])
  }

  /** Horizontal resharding: all schemas are copied from the first source, then all sources cloned, then every
      destination waited for, then the destinations compared one after the other, then read-only, replica and master
      traffic moved, in this order. */
  ghost predicate Reshards(plan: seq<Container>, p: Parameters, sources: seq<string>, dests: seq<string>) {
    var n := |dests|;
    var keyspace := if Keyspace in p then p[Keyspace] else "";
    && |plan| == n + 6 && |sources| > 0
    && OnePerShard(plan[0], dests, (t, s) => CopiesSchema(t, p, keyspace + "/" + sources[0], keyspace + "/" + s))
    && OnePerShard(plan[1], sources, (t, s) => Clones(t, p, s))
    && OnePerShard(plan[2], dests, (t, s) => Waits(t, p, Keyspace, s))
    && OneByOne(plan[3..n + 3], dests, (t, s) => Compares(t, p, s))
    && OnePerShard(plan[n + 3], sources, (t, s) => Migrates(t, p, "rdonly", s))
    && OnePerShard(plan[n + 4], sources, (t, s) => Migrates(t, p, "replica", s))
    && OnePerShard(plan[n + 5], sources, (t, s) => Migrates(t, p, "master", s))
  }

  lemma PerShardIs(shards: seq<string>, make: string -> Task, fits: (Task, string) -> bool)
    requires forall shard :: fits(make(shard), shard)
    ensures OnePerShard(PerShard(shards, make), shards, fits) && OneByOne(Singles(shards, make), shards, fits)
  {
  }

  lemma HorizontalStages(p: Parameters, sources: seq<string>, dests: seq<string>)
    requires sources == Split(Param(p, SourceShardList), ',') && dests == Split(Param(p, DestShardList), ',')
    ensures Reshards(HorizontalPlan(p), p, sources, dests)
  {
    hide Split, CopySchema, SplitClone, WaitReplication, SplitDiff, MigrateTypes, CopiesSchema, Clones, Waits,
      Compares, Migrates, PerShard, Singles, OnePerShard, OneByOne;
    var k := Param(p, Keyspace);
    forall s ensures CopiesSchema(CopySchema(p)(s), p, k + "/" + sources[0], k + "/" + s) { CopySchemaIs(p, s); }
    forall s ensures Clones(SplitClone(p)(s), p, s) { SplitCloneIs(p, s); }
    forall s ensures Waits(WaitReplication(k, p)(s), p, Keyspace, s) { WaitIs(p, Keyspace, s); }
    forall s ensures Compares(SplitDiff(p)(s), p, s) { SplitDiffIs(p, s); }
    forall served, s ensures Migrates(MigrateTypes(p, served)(s), p, served, s) { MigrateTypesIs(p, served, s); }
    PerShardIs(dests, CopySchema(p), (t, s) => CopiesSchema(t, p, k + "/" + sources[0], k + "/" + s));
    PerShardIs(sources, SplitClone(p), (t, s) => Clones(t, p, s));
    PerShardIs(dests, WaitReplication(k, p), (t, s) => Waits(t, p, Keyspace, s));
    PerShardIs(dests, SplitDiff(p), (t, s) => Compares(t, p, s));
    PerShardIs(sources, MigrateTypes(p, "rdonly"), (t, s) => Migrates(t, p, "rdonly", s));
    PerShardIs(sources, MigrateTypes(p, "replica"), (t, s) => Migrates(t, p, "replica", s));
    PerShardIs(sources, MigrateTypes(p, "master"), (t, s) => Migrates(t, p, "master", s));
    AssembledAt(PerShard(dests, CopySchema(p)), PerShard(sources, SplitClone(p)),
      PerShard(dests, WaitReplication(k, p)), Singles(dests, SplitDiff(p)),
      PerShard(sources, MigrateTypes(p, "rdonly")),
      PerShard(sources, MigrateTypes(p, "replica")), PerShard(sources, MigrateTypes(p, "master")));
  }

  /** A vertical split: the same stages over the shards the two keyspaces share, each schema copied from the source
      keyspace to the destination keyspace. */
  ghost predicate Splits(plan: seq<Container>, p: Parameters, shards: seq<string>) {
    var n := |shards|;
    && |plan| == n + 6
    && OnePerShard(plan[0], shards, (t, s) => CopiesTables(t, p, s))
    && OnePerShard(plan[1], shards, (t, s) => ClonesTables(t, p, s))
    && OnePerShard(plan[2], shards, (t, s) => Waits(t, p, DestKeyspace, s))
    && OneByOne(plan[3..n + 3], shards, (t, s) => ComparesTables(t, p, s))
    && OnePerShard(plan[n + 3], shards, (t, s) => MigratesTables(t, p, "rdonly", s))
    && OnePerShard(plan[n + 4], shards, (t, s) => MigratesTables(t, p, "replica", s))
    && OnePerShard(plan[n + 5], shards, (t, s) => MigratesTables(t, p, "master", s))
  }

  lemma VerticalStages(p: Parameters, shards: seq<string>)
    requires shards == Split(Param(p, ShardList), ',')
    ensures Splits(VerticalPlan(p), p, shards)
  {
    hide Split, Param, CopyTables, VerticalClone, WaitReplication, VerticalDiff, MigrateFrom, CopiesTables,
      ClonesTables, Waits, ComparesTables, MigratesTables, PerShard, Singles, OnePerShard, OneByOne;
    var k := Param(p, DestKeyspace);
    forall s ensures CopiesTables(CopyTables(p)(s), p, s) { CopyTablesIs(p, s); }
    forall s ensures ClonesTables(VerticalClone(p)(s), p, s) { VerticalCloneIs(p, s); }
    forall s ensures Waits(WaitReplication(k, p)(s), p, DestKeyspace, s) { WaitIs(p, DestKeyspace, s); }
    forall s ensures ComparesTables(VerticalDiff(p)(s), p, s) { VerticalDiffIs(p, s); }
    forall served, s ensures MigratesTables(MigrateFrom(p, served)(s), p, served, s) { MigrateFromIs(p, served, s); }
    PerShardIs(shards, CopyTables(p), (t, s) => CopiesTables(t, p, s));
    PerShardIs(shards, VerticalClone(p), (t, s) => ClonesTables(t, p, s));
    PerShardIs(shards, WaitReplication(k, p), (t, s) => Waits(t, p, DestKeyspace, s));
    PerShardIs(shards, VerticalDiff(p), (t, s) => ComparesTables(t, p, s));
    PerShardIs(shards, MigrateFrom(p, "rdonly"), (t, s) => MigratesTables(t, p, "rdonly", s));
    PerShardIs(shards, MigrateFrom(p, "replica"), (t, s) => MigratesTables(t, p, "replica", s));
    PerShardIs(shards, MigrateFrom(p, "master"), (t, s) => MigratesTables(t, p, "master", s));
    AssembledAt(PerShard(shards, CopyTables(p)), PerShard(shards, VerticalClone(p)),
      PerShard(shards, WaitReplication(k, p)), Singles(shards, VerticalDiff(p)),
      PerShard(shards, MigrateFrom(p, "rdonly")), PerShard(shards, MigrateFrom(p, "replica")),
      PerShard(shards, MigrateFrom(p, "master")));
  }

  // The loops that build the plans.

  /** AddTask for every shard. */
  method AddTasks(shards: seq<string>, make: string -> Task) returns (tasks: Container)
    ensures tasks == PerShard(shards, make)
  {
    tasks := [];
    for i := 0 to |shards|
      invariant tasks == PerShard(shards, make)[..i]
    {
      tasks := tasks + [make(shards[i])];
    }
  }

  /** A container with one task, for every shard. */
  method AddContainers(shards: seq<string>, make: string -> Task) returns (cs: seq<Container>)
    ensures cs == Singles(shards, make)
  {
    cs := [];
    for i := 0 to |shards|
      invariant cs == Singles(shards, make)[..i]
    {
      cs := cs + [[make(shards[i])]];
    }
  }

  method RunHorizontalResharding(p: Parameters) returns (plan: seq<Container>)
    ensures plan == HorizontalPlan(p) && ProperLeaves(plan)
  {
    HorizontalProper(p);
    hide ProperLeaves, PerShard, Singles, Split, Param, CopySchema, SplitClone, WaitReplication, SplitDiff,
      MigrateTypes;
    var sources, dests := Split(Param(p, SourceShardList), ','), Split(Param(p, DestShardList), ',');
    var copy := AddTasks(dests, CopySchema(p));
    var clone := AddTasks(sources, SplitClone(p));
    var wait := AddTasks(dests, WaitReplication(Param(p, Keyspace), p));
    var diffs := AddContainers(dests, SplitDiff(p));
    plan := [copy, clone, wait] + diffs;
    var rdonly := AddTasks(sources, MigrateTypes(p, "rdonly"));
    var replica := AddTasks(sources, MigrateTypes(p, "replica"));
    var master := AddTasks(sources, MigrateTypes(p, "master"));
    plan := plan + [rdonly, replica, master];
  }

  method RunVerticalSplit(p: Parameters) returns (plan: seq<Container>)
    ensures plan == VerticalPlan(p) && ProperLeaves(plan)
  {
    VerticalProper(p);
    hide ProperLeaves, PerShard, Singles, Split, Param, CopyTables, VerticalClone, WaitReplication, VerticalDiff,
      MigrateFrom;
    var shards := Split(Param(p, ShardList), ',');
    var copy := AddTasks(shards, CopyTables(p));
    var clone := AddTasks(shards, VerticalClone(p));
    var wait := AddTasks(shards, WaitReplication(Param(p, DestKeyspace), p));
    var diffs := AddContainers(shards, VerticalDiff(p));
    plan := [copy, clone, wait] + diffs;
    var rdonly := AddTasks(shards, MigrateFrom(p, "rdonly"));
    var replica := AddTasks(shards, MigrateFrom(p, "replica"));
    var master := AddTasks(shards, MigrateFrom(p, "master"));
    plan := plan + [rdonly, replica, master];
  }
}
