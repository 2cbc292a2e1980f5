/**
  From the configured list to registered handlers: the watch-list filters, the stages each
  discovery builds afresh, and the steps that register one handler per resource.
 */
module InformerPipeline {
  import opened Resources
  import opened Sequences
  import opened Names
  import opened WatchedResources

  // ----------------------------------------------------------- watch-list filters

  datatype ResourceConfig = ResourceConfig(resource: string, events: seq<string>)

  /** The first entry for the name. */
  function IndexOf(whiteList: seq<ResourceConfig>, name: string): Option<nat> {
    if whiteList == [] then None
    else if whiteList[0].resource == name then Some(0)
    else match IndexOf(whiteList[1..], name) case None => None case Some(i) => Some(i + 1)
  }

  lemma {:induction false} IndexOfMeaning(whiteList: seq<ResourceConfig>, name: string)
    ensures match IndexOf(whiteList, name)
      case None => forall i :: 0 <= i < |whiteList| ==> whiteList[i].resource != name
      case Some(k) =>
        && k < |whiteList| && whiteList[k].resource == name
        && forall i :: 0 <= i < k ==> whiteList[i].resource != name
  {
    if whiteList == [] || whiteList[0].resource == name {
    } else {
      IndexOfMeaning(whiteList[1..], name);
      forall i | 1 <= i < |whiteList| ensures whiteList[i] == whiteList[1..][i - 1] {
      }
    }
  }

  /** What becomes of an entry: dropped, or kept with some changes. */
  type Choice = PipelineConfig -> Option<PipelineConfig>

  function Filter(p: Pipelines, f: Choice): Pipelines {
    if p == [] then []
    else
      var n := |p| - 1;
      Filter(p[..n], f) + match f(p[n]) case None => [] case Some(v) => [v]
  }

  /** The positions of the kept entries, ascending. */
  function Kept(p: Pipelines, f: Choice): seq<nat> {
    if p == [] then []
    else
      var n := |p| - 1;
      Kept(p[..n], f) + if f(p[n]).Some? then [n] else []
  }

  ghost predicate KeepsNames(f: Choice) {
    forall v: PipelineConfig :: f(v).Some? ==> f(v).value.name == v.name
  }

  lemma {:induction false} KeptMatches(p: Pipelines, f: Choice)
    ensures |Kept(p, f)| == |Filter(p, f)|
    ensures forall k :: 0 <= k < |Kept(p, f)| ==> Kept(p, f)[k] < |p| && f(p[Kept(p, f)[k]]) == Some(Filter(p, f)[k])
  {
    if p == [] {
    } else {
      var n := |p| - 1;
      KeptMatches(p[..n], f);
      forall k | 0 <= k < |Kept(p, f)|
        ensures Kept(p, f)[k] < |p| && f(p[Kept(p, f)[k]]) == Some(Filter(p, f)[k])
      {
        if k < |Kept(p[..n], f)| {
          assert Kept(p, f)[k] == Kept(p[..n], f)[k] && Filter(p, f)[k] == Filter(p[..n], f)[k];
        }
      }
    }
  }

  lemma {:induction false} KeptAscends(p: Pipelines, f: Choice)
    ensures forall k :: 0 <= k < |Kept(p, f)| ==> Kept(p, f)[k] < |p|
    ensures forall k, l :: 0 <= k < l < |Kept(p, f)| ==> Kept(p, f)[k] < Kept(p, f)[l]
  {
    if p == [] {
    } else {
      KeptAscends(p[..|p| - 1], f);
    }
  }

  lemma {:induction false} KeptExactly(p: Pipelines, f: Choice)
    ensures forall i: nat :: i in Kept(p, f) <==> i < |p| && f(p[i]).Some?
  {
    if p == [] {
    } else {
      var n := |p| - 1;
      KeptExactly(p[..n], f);
      forall i: nat ensures i in Kept(p, f) <==> i < |p| && f(p[i]).Some? {
        assert i in Kept(p, f) <==> i in Kept(p[..n], f) || (i == n && f(p[n]).Some?);
        assert i < n ==> p[..n][i] == p[i];
      }
    }
  }

  /** A filter keeps the order: its result is made of the chosen entries, at ascending positions. */
  lemma {:induction false} FilterKeepsOrder(p: Pipelines, f: Choice)
    ensures |Kept(p, f)| == |Filter(p, f)|
    ensures forall k :: 0 <= k < |Kept(p, f)| ==> Kept(p, f)[k] < |p| && f(p[Kept(p, f)[k]]) == Some(Filter(p, f)[k])
    ensures forall k, l :: 0 <= k < l < |Kept(p, f)| ==> Kept(p, f)[k] < Kept(p, f)[l]
    ensures forall i: nat :: i in Kept(p, f) <==> i < |p| && f(p[i]).Some?
  {
    KeptMatches(p, f);
    KeptAscends(p, f);
    KeptExactly(p, f);
  }

  /** A filter that keeps names keeps them distinct. */
  lemma {:induction false} FilterKeepsDistinct(p: Pipelines, f: Choice)
    requires KeepsNames(f) && Distinct(NamesOf(p))
    ensures Distinct(NamesOf(Filter(p, f)))
    ensures forall n :: Contains(Filter(p, f), n) ==> Contains(p, n)
  {
    FilterKeepsOrder(p, f);
    var r, at := Filter(p, f), Kept(p, f);
    forall k, l | 0 <= k < l < |r| ensures NamesOf(r)[k] != NamesOf(r)[l] {
      assert NamesOf(p)[at[k]] != NamesOf(p)[at[l]];
    }
    forall n | Contains(r, n) ensures Contains(p, n) {
      var k :| 0 <= k < |r| && r[k].name == n;
      assert p[at[k]].name == n;
    }
  }

  function WhiteListed(whiteList: seq<ResourceConfig>): Choice {
    (v: PipelineConfig) =>
      match IndexOf(whiteList, v.name)
      case None => None
      case Some(i) => if i < |whiteList| then Some(v.(events := whiteList[i].events)) else None
  }

  function NotBlackListed(blackList: seq<string>): Choice {
    (v: PipelineConfig) => if v.name in blackList then None else Some(v.(events := DEFAULT_EVENTS))
  }

  /** The position of the first entry for the name, or -1. */
  method IndexFunc(whiteList: seq<ResourceConfig>, name: string) returns (idx: int)
    ensures IndexOf(whiteList, name) == if idx == -1 then None else Some(idx)
    ensures idx == -1 || 0 <= idx < |whiteList|
  {
    IndexOfMeaning(whiteList, name);
    for i := 0 to |whiteList|
      invariant forall j :: 0 <= j < i ==> whiteList[j].resource != name
    {
      if whiteList[i].resource == name {
        return i;
      }
    }
    idx := -1;
  }

  /**
    Keeps the pipelines that the whitelist names, in order, with the events of its first entry of
    the name; `at` are their positions.
   */
  method FilterWhitelistedPipelines(pipelines: Pipelines, whiteList: seq<ResourceConfig>)
    returns (result: Pipelines, ghost at: seq<nat>)
    ensures result == Filter(pipelines, WhiteListed(whiteList))
    ensures |at| == |result| && PositionsOf(pipelines, at, name => Lists(whiteList, name))
    ensures forall k :: 0 <= k < |result| ==>
      && result[k].name == pipelines[at[k]].name && result[k].publishTo == pipelines[at[k]].publishTo
      && FirstEvents(whiteList, result[k].name, result[k].events)
  {
    result := [];
    for i := 0 to |pipelines|
      invariant result == Filter(pipelines[..i], WhiteListed(whiteList))
    {
      var v := pipelines[i];
      var idx := IndexFunc(whiteList, v.name);
      if idx != -1 {
        result := result + [v.(events := whiteList[idx].events)];
      }
      assert pipelines[..i + 1][..i] == pipelines[..i];
    }
    assert pipelines[..|pipelines|] == pipelines;
    at := WhitelistExactly(pipelines, whiteList);
  }

  /** Keeps the pipelines that the blacklist does not name, in order, with all events; `at` are their positions. */
  method FilterBlacklistedPipelines(pipelines: Pipelines, blackList: seq<string>)
    returns (result: Pipelines, ghost at: seq<nat>)
    ensures result == Filter(pipelines, NotBlackListed(blackList))
    ensures |at| == |result| && PositionsOf(pipelines, at, name => name !in blackList)
    ensures forall k :: 0 <= k < |result| ==>
      && result[k].name == pipelines[at[k]].name && result[k].publishTo == pipelines[at[k]].publishTo
      && result[k].events == ["ADDED", "MODIFIED", "DELETED"]
  {
    result := [];
    for i := 0 to |pipelines|
      invariant result == Filter(pipelines[..i], NotBlackListed(blackList))
    {
      var v := pipelines[i];
      if v.name !in blackList {
        result := result + [v.(events := DEFAULT_EVENTS)];
      }
      assert pipelines[..i + 1][..i] == pipelines[..i];
    }
    assert pipelines[..|pipelines|] == pipelines;
    at := BlacklistExactly(pipelines, blackList);
  }

  // ----------------------------------------------------------- stages and steps

  /** With a resource restriction, only names whose first dotted part is in it are watched. */
  predicate ShouldFilterOutByName(name: string, resources: set<string>) {
    resources != {} && CutFirst(name, '.').0 !in resources
  }

  function Wanted(resources: set<string>): Choice {
    (v: PipelineConfig) => if ShouldFilterOutByName(v.name, resources) then None else Some(v)
  }

  /** The register steps of one discovery, in the order they run. */
  function Steps(global: Pipelines, local: Pipelines, resources: set<string>): Pipelines {
    Filter(global, Wanted(resources)) + Filter(local, Wanted(resources))
  }

  /** Keeps the pipelines that a resource restriction lets through, in order. */
  method StageFor(configs: Pipelines, resources: set<string>) returns (stage: Pipelines)
    ensures stage == Filter(configs, Wanted(resources))
  {
    stage := [];
    for i := 0 to |configs|
      invariant stage == Filter(configs[..i], Wanted(resources))
    {
      if !ShouldFilterOutByName(configs[i].name, resources) {
        stage := stage + [configs[i]];
      }
      assert configs[..i + 1][..i] == configs[..i];
    }
    assert configs[..|configs|] == configs;
  }

  /** A stage registers one informer per configuration, or starts what is registered. */
  datatype Stage = Register(configs: Pipelines) | StartInformers

  /** The register steps of some stages, in the order they run. */
  function StepsOf(stages: seq<Stage>): Pipelines {
    if stages == [] then []
    else
      StepsOf(stages[..|stages| - 1]) + ConfigsOf(stages[|stages| - 1])
  }

  function ConfigsOf(stage: Stage): Pipelines {
    match stage
    case Register(configs) => configs
    case StartInformers => []
  }

  lemma StepsOfSnoc(stages: seq<Stage>, stage: Stage)
    ensures StepsOf(stages + [stage]) == StepsOf(stages) + ConfigsOf(stage)
  {
    assert (stages + [stage])[..|stages|] == stages;
  }

  /** Informers are started last, and only then. */
  predicate StartsLast(stages: seq<Stage>) {
    && stages != [] && stages[|stages| - 1].StartInformers?
    && forall i :: 0 <= i < |stages| - 1 ==> stages[i].Register?
  }

  /** The stages of one discovery, built afresh: register stages without steps are left out. */
  method New(plConfigs: map<string, Pipelines>, resources: set<string>) returns (stages: seq<Stage>)
    ensures StartsLast(stages)
    ensures StepsOf(stages) == Steps(Named(plConfigs, GLOBAL), Named(plConfigs, LOCAL), resources)
    ensures forall i :: 0 <= i < |stages| - 1 ==> stages[i].configs != []
  {
    var gdstage := StageFor(Named(plConfigs, GLOBAL), resources);
    var ldstage := StageFor(Named(plConfigs, LOCAL), resources);
    stages := [];
    assert StepsOf(stages) == [];
    if |gdstage| > 0 {
      StepsOfSnoc(stages, Register(gdstage));
      stages := stages + [Register(gdstage)];
    }
    assert StepsOf(stages) == gdstage;
    if |ldstage| > 0 {
      StepsOfSnoc(stages, Register(ldstage));
      stages := stages + [Register(ldstage)];
    }
    StepsOfSnoc(stages, StartInformers);
    stages := stages + [StartInformers];
  }

  function Named(plConfigs: map<string, Pipelines>, key: string): Pipelines {
    if key in plConfigs then plConfigs[key] else []
  }

  /** The informers of one discovery: the handlers registered on them in order, and those whose informer runs. */
  class InformerFactory {
    var handlers: seq<GVR>
    var started: seq<GVR>

    constructor ()
      ensures handlers == [] && started == []
    {
      handlers, started := [], [];
    }

    /** One register step: fails on a name that is no `resource.version.group`, else adds one handler and its store. */
    method Exec(config: PipelineConfig, data: map<string, GVR>) returns (err: bool, result: map<string, GVR>)
      modifies this`handlers
      ensures err <==> ParseResourceArg(config.name).None?
      ensures err ==> handlers == old(handlers)
      ensures !err ==> handlers == old(handlers) + [ParseResourceArg(config.name).value]
      ensures !err ==> result == data[config.name := ParseResourceArg(config.name).value]
    {
      var gvr := ParseResourceArg(config.name);
      if gvr.None? {
        return true, map[];
      }
      handlers := handlers + [gvr.value];
      return false, data[config.name := gvr.value];
    }

    /** Runs the steps one after the other, stopping at the first that fails. */
    method RunSteps(steps: Pipelines) returns (err: bool, stores: map<string, GVR>)
      modifies this`handlers
      ensures handlers == old(handlers) + Registered(steps)
      ensures err <==> !AllParse(steps)
      ensures !err ==> stores.Keys == NameSet(steps)
    {
      err, stores := false, map[];
      for i := 0 to |steps|
        invariant handlers == old(handlers) + Registered(steps[..i])
        invariant AllParse(steps[..i])
        invariant stores.Keys == NameSet(steps[..i])
      {
        StepRegisters(steps, i);
        err, stores := Exec(steps[i], stores);
        if err {
          return;
        }
      }
      assert steps[..|steps|] == steps;
    }

    /** Starts the informers registered so far. */
    method Start()
      modifies this`started
      ensures started == handlers
    {
      started := handlers;
    }

    /** A discovery: the stages run in order, up to the first that fails. */
    method Run(stages: seq<Stage>) returns (err: bool)
      requires StartsLast(stages) && handlers == started == []
      modifies this
      ensures handlers == Registered(StepsOf(stages))
      ensures started == Started(StepsOf(stages))
      ensures err <==> !AllParse(StepsOf(stages))
    {
      err := false;
      for i := 0 to |stages|
        invariant AllParse(StepsOf(stages[..i]))
        invariant handlers == Registered(StepsOf(stages[..i]))
        invariant started == if i < |stages| then [] else handlers
      {
        StageRuns(stages, i);
        match stages[i] {
          case Register(configs) =>
            var stores;
            err, stores := RunSteps(configs);
            if err {
              return;
            }
          case StartInformers =>
            Start();
        }
      }
      assert stages[..|stages|] == stages;
    }
  }

  lemma NameSetSnoc(p: Pipelines, i: nat)
    requires i < |p|
    ensures NameSet(p[..i + 1]) == NameSet(p[..i]) + {p[i].name}
  {
    assert p[..i + 1] == p[..i] + [p[i]];
    assert p[..i + 1][i] == p[i];
    assert forall j :: 0 <= j < i ==> p[..i + 1][j] == p[..i][j];
  }

  lemma StepRegisters(steps: Pipelines, i: nat)
    requires i < |steps| && AllParse(steps[..i])
    ensures NameSet(steps[..i + 1]) == NameSet(steps[..i]) + {steps[i].name}
    ensures match ParseResourceArg(steps[i].name)
      case Some(g) => Registered(steps[..i + 1]) == Registered(steps[..i]) + [g] && AllParse(steps[..i + 1])
      case None => Registered(steps) == Registered(steps[..i]) && !AllParse(steps)
  {
    forall j | 0 <= j < i ensures ParseResourceArg(steps[j].name).Some? {
      assert steps[..i][j] == steps[j];
    }
    RegisteredSnoc(steps, i);
    NameSetSnoc(steps, i);
  }

  /** After steps that all parse, one more registers its resource, or ends the run. */
  lemma {:induction false} RegisteredSnoc(steps: Pipelines, i: nat)
    requires i < |steps| && forall j :: 0 <= j < i ==> ParseResourceArg(steps[j].name).Some?
    ensures match ParseResourceArg(steps[i].name)
      case Some(g) => Registered(steps[..i + 1]) == Registered(steps[..i]) + [g]
      case None => Registered(steps) == Registered(steps[..i])
  {
    if i == 0 {
      assert steps[..1][1..] == [];
    } else {
      RegisteredSnoc(steps[1..], i - 1);
      assert steps[..i + 1][1..] == steps[1..][..i] && steps[..i][1..] == steps[1..][..i - 1];
    }
  }

  /** The resources that get a handler, one entry per handler. */
  function Registered(steps: Pipelines): seq<GVR> {
    if steps == [] || ParseResourceArg(steps[0].name).None? then []
    else [ParseResourceArg(steps[0].name).value] + Registered(steps[1..])
  }

  /** Every name is a printed `resource.version.group`. */
  ghost predicate AllParse(p: Pipelines) {
    forall i :: 0 <= i < |p| ==> ParseResourceArg(p[i].name).Some?
  }

  /** The resources whose informers run after a discovery: a step that fails keeps the start stage from running. */
  ghost function Started(steps: Pipelines): seq<GVR> {
    if AllParse(steps) then Registered(steps) else []
  }

  /** The configurations before the first whose name does not parse. */
  function Runnable(steps: Pipelines): Pipelines {
    if steps == [] || ParseResourceArg(steps[0].name).None? then [] else [steps[0]] + Runnable(steps[1..])
  }

  lemma {:induction false} RunnableMeaning(steps: Pipelines)
    ensures Runnable(steps) <= steps && AllParse(Runnable(steps))
    ensures Runnable(steps) == steps || ParseResourceArg(steps[|Runnable(steps)|].name).None?
    ensures Runnable(steps) == steps <==> AllParse(steps)
  {
    if steps == [] || ParseResourceArg(steps[0].name).None? {
    } else {
      RunnableMeaning(steps[1..]);
      var r := Runnable(steps);
      assert forall i :: 1 <= i < |steps| ==> steps[i] == steps[1..][i - 1];
      assert forall i :: 1 <= i < |r| ==> r[i] == Runnable(steps[1..])[i - 1];
    }
  }

  /** Each runnable step registers the resource of its own name, in order, and no other step does. */
  lemma {:induction false} RegisteredIsRunnable(steps: Pipelines)
    ensures |Registered(steps)| == |Runnable(steps)|
    ensures forall i :: 0 <= i < |Registered(steps)| ==> PipelineName(Registered(steps)[i]) == Runnable(steps)[i].name
  {
    if steps == [] || ParseResourceArg(steps[0].name).None? {
    } else {
      RegisteredIsRunnable(steps[1..]);
      PrintParsed(steps[0].name);
    }
  }

  lemma AllParseCons(p: Pipelines)
    requires p != []
    ensures AllParse(p) <==> ParseResourceArg(p[0].name).Some? && AllParse(p[1..])
  {
    assert forall i :: 1 <= i < |p| ==> p[i] == p[1..][i - 1];
    assert forall i :: 0 <= i < |p| - 1 ==> p[1..][i] == p[i + 1];
  }

  lemma RunnableCons(p: Pipelines)
    requires p != [] && ParseResourceArg(p[0].name).Some?
    ensures Runnable(p) == [p[0]] + Runnable(p[1..])
  {
  }

  lemma {:induction false} RunnableConcat(a: Pipelines, b: Pipelines)
    ensures Runnable(a + b) == if AllParse(a) then a + Runnable(b) else Runnable(a)
  {
    if a == [] {
      assert a + b == b;
    } else {
      AllParseCons(a);
      assert (a + b)[0] == a[0];
      if ParseResourceArg(a[0].name).Some? {
        RunnableConcat(a[1..], b);
        RunnableCons(a + b);
        RunnableCons(a);
        assert (a + b)[1..] == a[1..] + b;
        assert [a[0]] + (a[1..] + Runnable(b)) == a + Runnable(b);
      }
    }
  }

  lemma AllParseConcat(a: Pipelines, b: Pipelines)
    ensures AllParse(a + b) <==> AllParse(a) && AllParse(b)
  {
    assert forall i :: 0 <= i < |a| ==> (a + b)[i] == a[i];
    assert forall i :: 0 <= i < |b| ==> (a + b)[|a| + i] == b[i];
  }

  lemma {:induction false} RegisteredConcat(a: Pipelines, b: Pipelines)
    ensures Registered(a + b) == if AllParse(a) then Registered(a) + Registered(b) else Registered(a)
    ensures AllParse(a + b) <==> AllParse(a) && AllParse(b)
  {
    AllParseConcat(a, b);
    if a == [] {
      assert a + b == b;
    } else {
      assert (a + b)[1..] == a[1..] + b;
      RegisteredConcat(a[1..], b);
      AllParseCons(a);
    }
  }

  /** What one stage adds when all before it succeeded; when it fails, nothing after it counts. */
  lemma StageRuns(stages: seq<Stage>, i: nat)
    requires i < |stages| && AllParse(StepsOf(stages[..i]))
    ensures
      var before, after, configs := StepsOf(stages[..i]), StepsOf(stages[..i + 1]), ConfigsOf(stages[i]);
      && Registered(after) == Registered(before) + Registered(configs)
      && (AllParse(after) <==> AllParse(configs))
      && (!AllParse(configs) ==> !AllParse(StepsOf(stages)) && Registered(StepsOf(stages)) == Registered(after))
  {
    assert stages[..i + 1] == stages[..i] + [stages[i]];
    StepsOfSnoc(stages[..i], stages[i]);
    RegisteredConcat(StepsOf(stages[..i]), ConfigsOf(stages[i]));
    if !AllParse(ConfigsOf(stages[i])) {
      UnparsedPrefix(stages, i + 1);
    }
  }

  /** What runs after a step that failed adds nothing. */
  lemma {:induction false} UnparsedPrefix(stages: seq<Stage>, i: nat)
    requires i <= |stages| && !AllParse(StepsOf(stages[..i]))
    ensures !AllParse(StepsOf(stages)) && Registered(StepsOf(stages)) == Registered(StepsOf(stages[..i]))
    decreases |stages|
  {
    if i == |stages| {
      assert stages[..i] == stages;
    } else {
      var n := |stages| - 1;
      assert stages[..n][..i] == stages[..i];
      UnparsedPrefix(stages[..n], i);
      RegisteredConcat(StepsOf(stages[..n]), ConfigsOf(stages[n]));
    }
  }

  /** Steps with distinct names register at most one handler per resource. */
  lemma {:induction false} DistinctStepsDistinctHandlers(steps: Pipelines)
    requires Distinct(NamesOf(steps))
    ensures Distinct(Registered(steps))
    ensures forall g :: g in Registered(steps) ==> Contains(steps, PipelineName(g))
  {
    if steps == [] || ParseResourceArg(steps[0].name).None? {
    } else {
      var rest := steps[1..];
      forall i, j | 0 <= i < j < |rest| ensures NamesOf(rest)[i] != NamesOf(rest)[j] {
        assert NamesOf(steps)[i + 1] != NamesOf(steps)[j + 1];
      }
      DistinctStepsDistinctHandlers(rest);
      PrintParsed(steps[0].name);
      var first := ParseResourceArg(steps[0].name).value;
      forall g | g in Registered(rest) ensures g != first && Contains(steps, PipelineName(g)) {
        var i :| 0 <= i < |rest| && rest[i].name == PipelineName(g);
        assert NamesOf(steps)[0] != NamesOf(steps)[i + 1];
        assert steps[i + 1].name == PipelineName(g);
      }
    }
  }

  // ----------------------------------------------------------- whole runs

  /** No name occurs twice, in one list or across both. */
  predicate Apart(global: Pipelines, local: Pipelines) {
    && Distinct(NamesOf(global)) && Distinct(NamesOf(local))
    && forall i, j :: 0 <= i < |global| && 0 <= j < |local| ==> global[i].name != local[j].name
  }

  lemma {:induction false} ApartSteps(global: Pipelines, local: Pipelines, resources: set<string>)
    requires Apart(global, local)
    ensures Distinct(NamesOf(Steps(global, local, resources)))
  {
    FilterKeepsDistinct(global, Wanted(resources));
    FilterKeepsDistinct(local, Wanted(resources));
    var g, l := Filter(global, Wanted(resources)), Filter(local, Wanted(resources));
    forall i, j | 0 <= i < j < |g + l| ensures NamesOf(g + l)[i] != NamesOf(g + l)[j] {
      if j < |g| {
        assert NamesOf(g)[i] != NamesOf(g)[j];
      } else if i >= |g| {
        assert NamesOf(l)[i - |g|] != NamesOf(l)[j - |g|];
      } else {
        assert Contains(g, g[i].name) && Contains(l, l[j - |g|].name);
      }
    }
  }

  /**
    Exactly when the two lists stay apart: no local name's last ADDED or DELETED event was ADDED,
    as the update step looks for a name in the global list only.
   */
  lemma {:induction false} StaysApart(global: Pipelines, local: Pipelines, evs: seq<CrdEvent>)
    requires Apart(global, local)
    ensures Apart(Watch(global, evs), local) <==>
      forall j :: 0 <= j < |local| ==> LastSays(evs, local[j].name) != Some(ADDED)
  {
    var g := Watch(global, evs);
    LastEventWins(global, evs, "");
    forall j | 0 <= j < |local| ensures Contains(g, local[j].name) <==> LastSays(evs, local[j].name) == Some(ADDED) {
      LastEventWins(global, evs, local[j].name);
    }
    assert Apart(g, local) <==> forall j :: 0 <= j < |local| ==> !Contains(g, local[j].name);
  }

  /**
    One handler per resource. Start from lists kept apart, filtered by a watch list or not; after
    any CRD events for names that are not local, a discovery registers no resource twice, so one
    informer event causes at most one write.
   */
  lemma {:induction false} OneHandlerPerResource(
      global: Pipelines, local: Pipelines, choice: Choice, evs: seq<CrdEvent>, resources: set<string>)
    requires Apart(global, local) && KeepsNames(choice)
    requires forall i :: 0 <= i < |evs| ==> !Contains(local, evs[i].name)
    ensures Distinct(Registered(Steps(Watch(Filter(global, choice), evs), Filter(local, choice), resources)))
  {
    FilteredApart(global, local, choice);
    NeverAdded(local, choice, evs);
    StaysApart(Filter(global, choice), Filter(local, choice), evs);
    var steps := Steps(Watch(Filter(global, choice), evs), Filter(local, choice), resources);
    ApartSteps(Watch(Filter(global, choice), evs), Filter(local, choice), resources);
    DistinctStepsDistinctHandlers(steps);
  }

  lemma {:induction false} FilteredApart(global: Pipelines, local: Pipelines, choice: Choice)
    requires Apart(global, local) && KeepsNames(choice)
    ensures Apart(Filter(global, choice), Filter(local, choice))
  {
    var g, l := Filter(global, choice), Filter(local, choice);
    FilterKeepsDistinct(global, choice);
    FilterKeepsDistinct(local, choice);
    forall i, j | 0 <= i < |g| && 0 <= j < |l| ensures g[i].name != l[j].name {
      assert Contains(g, g[i].name) && Contains(l, l[j].name);
    }
  }

  lemma {:induction false} NeverAdded(local: Pipelines, choice: Choice, evs: seq<CrdEvent>)
    requires Distinct(NamesOf(local)) && KeepsNames(choice)
    requires forall i :: 0 <= i < |evs| ==> !Contains(local, evs[i].name)
    ensures forall j :: 0 <= j < |Filter(local, choice)| ==> LastSays(evs, Filter(local, choice)[j].name) != Some(ADDED)
  {
    var l := Filter(local, choice);
    FilterKeepsDistinct(local, choice);
    forall j | 0 <= j < |l| ensures LastSays(evs, l[j].name) != Some(ADDED) {
      assert Contains(l, l[j].name);
      UnmentionedSaysNothing(evs, l[j].name);
    }
  }

  lemma {:induction false} UnmentionedSaysNothing(evs: seq<CrdEvent>, name: string)
    requires forall i :: 0 <= i < |evs| ==> evs[i].name != name
    ensures LastSays(evs, name) == None
  {
    if evs == [] {
    } else {
      UnmentionedSaysNothing(evs[..|evs| - 1], name);
    }
  }

  lemma {:induction false} WatchListsKeepNames(whiteList: seq<ResourceConfig>, blackList: seq<string>)
    ensures KeepsNames(WhiteListed(whiteList)) && KeepsNames(NotBlackListed(blackList))
  {
  }

  /** The name is one that the code prints for a CRD. */
  ghost predicate Printed(name: string) {
    exists g :: PipelineName(g) == name
  }

  /** CRD events keep names parseable: what they add is printed from a GVR. */
  lemma {:induction false} WatchKeepsParsing(p: Pipelines, evs: seq<CrdEvent>)
    requires AllParse(p) && forall i :: 0 <= i < |evs| ==> Printed(evs[i].name)
    ensures AllParse(Watch(p, evs))
  {
    forall i | 0 <= i < |Watch(p, evs)| ensures ParseResourceArg(Watch(p, evs)[i].name).Some? {
      var pc := Watch(p, evs)[i];
      EntriesAreGivenOrDefault(p, evs, pc);
      if pc !in p {
        var j :| 0 <= j < |evs| && evs[j] == CrdEvent(ADDED, pc.name, true);
        var g :| PipelineName(g) == evs[j].name;
        PrintedNamesParse(g);
      }
    }
  }

  /** A handler is registered on the resource of this name. */
  ghost predicate HasHandler(handlers: seq<GVR>, name: string) {
    exists k :: 0 <= k < |handlers| && PipelineName(handlers[k]) == name
  }

  lemma HandlersAreRunnable(steps: Pipelines, name: string)
    ensures HasHandler(Registered(steps), name) <==> Contains(Runnable(steps), name)
  {
    RegisteredIsRunnable(steps);
    if Contains(Runnable(steps), name) {
      var i :| 0 <= i < |Runnable(steps)| && Runnable(steps)[i].name == name;
      assert PipelineName(Registered(steps)[i]) == name;
    }
  }

  /** One of the lists watches the name, and the restriction to some resources lets it through. */
  predicate Watched(global: Pipelines, local: Pipelines, resources: set<string>, name: string) {
    (Contains(global, name) || Contains(local, name)) && !ShouldFilterOutByName(name, resources)
  }

  lemma {:induction false} FilterWanted(p: Pipelines, resources: set<string>, name: string)
    ensures Contains(Filter(p, Wanted(resources)), name) <==>
      Contains(p, name) && !ShouldFilterOutByName(name, resources)
  {
    FilterKeepsOrder(p, Wanted(resources));
    var r, at := Filter(p, Wanted(resources)), Kept(p, Wanted(resources));
    if Contains(r, name) {
      var k :| 0 <= k < |r| && r[k].name == name;
      assert p[at[k]].name == name;
    }
    if Contains(p, name) && !ShouldFilterOutByName(name, resources) {
      var i: nat :| i < |p| && p[i].name == name;
      assert i in at;
      var k :| 0 <= k < |at| && at[k] == i;
      assert r[k].name == name;
    }
  }

  lemma {:induction false} StepsAreWatched(global: Pipelines, local: Pipelines, resources: set<string>, name: string)
    ensures Contains(Steps(global, local, resources), name) <==> Watched(global, local, resources, name)
  {
    var g, l := Filter(global, Wanted(resources)), Filter(local, Wanted(resources));
    FilterWanted(global, resources, name);
    FilterWanted(local, resources, name);
    if Contains(g, name) {
      var i :| 0 <= i < |g| && g[i].name == name;
      assert (g + l)[i].name == name;
    }
    if Contains(l, name) {
      var i :| 0 <= i < |l| && l[i].name == name;
      assert (g + l)[|g| + i].name == name;
    }
  }

  /**
    When every watched name has a handler: exactly when every watched name parses. In any case the
    handlers are those of the steps before the first whose name does not parse.
   */
  lemma {:induction false} EveryWatchedNameHasHandler(global: Pipelines, local: Pipelines, resources: set<string>)
    ensures
      var steps := Steps(global, local, resources);
      && (forall name :: HasHandler(Registered(steps), name) <==> Contains(Runnable(steps), name))
      && ((forall name :: Watched(global, local, resources, name) ==> HasHandler(Registered(steps), name)) <==>
          (forall name :: Watched(global, local, resources, name) ==> ParseResourceArg(name).Some?))
  {
    var steps := Steps(global, local, resources);
    RunnableMeaning(steps);
    forall name
      ensures HasHandler(Registered(steps), name) <==> Contains(Runnable(steps), name)
      ensures Contains(steps, name) <==> Watched(global, local, resources, name)
    {
      HandlersAreRunnable(steps, name);
      StepsAreWatched(global, local, resources, name);
    }
    if forall name :: Watched(global, local, resources, name) ==> ParseResourceArg(name).Some? {
      assert AllParse(steps) by {
        forall i | 0 <= i < |steps| ensures ParseResourceArg(steps[i].name).Some? {
          assert Contains(steps, steps[i].name);
        }
      }
    }
  }

  /**
    When every watched name is discovered, its informer started: exactly when every watched name
    parses. One that does not keeps every informer from starting.
   */
  lemma {:induction false} DiscoveryIsAllOrNothing(global: Pipelines, local: Pipelines, resources: set<string>)
    ensures
      var started := Started(Steps(global, local, resources));
      if forall name :: Watched(global, local, resources, name) ==> ParseResourceArg(name).Some?
      then forall name :: HasHandler(started, name) <==> Watched(global, local, resources, name)
      else started == []
  {
    var steps := Steps(global, local, resources);
    EveryWatchedNameHasHandler(global, local, resources);
    RunnableMeaning(steps);
    forall name ensures Contains(steps, name) <==> Watched(global, local, resources, name) {
      StepsAreWatched(global, local, resources, name);
    }
    if AllParse(steps) {
      forall name | Contains(steps, name) ensures ParseResourceArg(name).Some? {
      }
    } else {
      var i :| 0 <= i < |steps| && ParseResourceArg(steps[i].name).None?;
      assert Contains(steps, steps[i].name);
    }
  }

  /** CRD events never break a discovery: from lists that parse, every watched name is discovered after any of them. */
  lemma {:induction false} CrdEventsKeepDiscovery(
      global: Pipelines, local: Pipelines, evs: seq<CrdEvent>, resources: set<string>)
    requires AllParse(global) && AllParse(local)
    requires forall i :: 0 <= i < |evs| ==> Printed(evs[i].name)
    ensures
      var g := Watch(global, evs);
      forall name :: Watched(g, local, resources, name) <==> HasHandler(Started(Steps(g, local, resources)), name)
  {
    var g := Watch(global, evs);
    WatchKeepsParsing(global, evs);
    DiscoveryIsAllOrNothing(g, local, resources);
  }

  // ----------------------------------------------------------- the shipped local list

  /** A name in the program's own local list that has one dot only. */
  const SERVICE_APIS := "service.apis"

  lemma ServiceApisDoesNotParse()
    ensures ParseResourceArg(SERVICE_APIS) == None && CutFirst(SERVICE_APIS, '.').0 == "service"
  {
    assert SERVICE_APIS == "service" + ['.'] + "apis";
    CutFirstJoin("service", '.', "apis");
    NoDot("apis");
  }

  lemma {:induction false} NoDot(s: string)
    requires '.' !in s
    ensures CutFirst(s, '.').1 == None
  {
    if s == [] {
    } else {
      NoDot(s[1..]);
    }
  }

  /** The blacklist keeps every name it does not hold. */
  lemma {:induction false} BlacklistKeeps(p: Pipelines, blackList: seq<string>, name: string)
    requires Contains(p, name) && name !in blackList
    ensures Contains(Filter(p, NotBlackListed(blackList)), name)
  {
    FilterKeepsOrder(p, NotBlackListed(blackList));
    var r, at := Filter(p, NotBlackListed(blackList)), Kept(p, NotBlackListed(blackList));
    var i: nat :| i < |p| && p[i].name == name;
    assert i in at;
    var k :| 0 <= k < |at| && at[k] == i;
    assert r[k].name == name;
  }

  /**
    With a local list that has `service.apis`, as the shipped one has, a discovery starts no
    informer at all, whatever the blacklist and the CRD events, unless the blacklist holds that
    very name or a resource restriction leaves it out.
   */
  lemma {:induction false} ServiceApisStartsNothing(
      global: Pipelines, local: Pipelines, blackList: seq<string>, evs: seq<CrdEvent>, resources: set<string>)
    requires Contains(local, SERVICE_APIS) && SERVICE_APIS !in blackList
    requires resources == {} || "service" in resources
    ensures
      var g, l := Filter(global, NotBlackListed(blackList)), Filter(local, NotBlackListed(blackList));
      Started(Steps(Watch(g, evs), l, resources)) == []
  {
    var g, l := Filter(global, NotBlackListed(blackList)), Filter(local, NotBlackListed(blackList));
    ServiceApisDoesNotParse();
    BlacklistKeeps(local, blackList, SERVICE_APIS);
    assert Watched(Watch(g, evs), l, resources, SERVICE_APIS);
    DiscoveryIsAllOrNothing(Watch(g, evs), l, resources);
  }

  // ----------------------------------------------------------- second handlers

  lemma DistinctAlike<A, B>(a: seq<A>, b: seq<B>)
    requires |a| == |b| && forall i, j :: 0 <= i < j < |a| ==> (a[i] == a[j] <==> b[i] == b[j])
    ensures Distinct(a) <==> Distinct(b)
  {
  }

  lemma SameHandlerSameName(steps: Pipelines, i: nat, j: nat)
    requires i < |Registered(steps)| && j < |Registered(steps)| == |Runnable(steps)|
    ensures Registered(steps)[i] == Registered(steps)[j] <==> Runnable(steps)[i].name == Runnable(steps)[j].name
  {
    RegisteredIsRunnable(steps);
    RegisteredParse(steps);
    assert PipelineName(Registered(steps)[i]) == Runnable(steps)[i].name;
    assert PipelineName(Registered(steps)[j]) == Runnable(steps)[j].name;
    assert Some(Registered(steps)[i]) == ParseResourceArg(Runnable(steps)[i].name);
    assert Some(Registered(steps)[j]) == ParseResourceArg(Runnable(steps)[j].name);
  }

  /** Handlers are distinct exactly when the names that register them are. */
  lemma DistinctHandlersExactlyWhen(steps: Pipelines)
    ensures Distinct(Registered(steps)) <==> Distinct(NamesOf(Runnable(steps)))
  {
    RegisteredParse(steps);
    var h, names := Registered(steps), NamesOf(Runnable(steps));
    forall i, j | 0 <= i < j < |h| ensures h[i] == h[j] <==> names[i] == names[j] {
      SameHandlerSameName(steps, i, j);
    }
    DistinctAlike(h, names);
  }

  lemma {:induction false} RegisteredParse(steps: Pipelines)
    ensures |Registered(steps)| == |Runnable(steps)|
    ensures forall i :: 0 <= i < |Registered(steps)| ==>
      Some(Registered(steps)[i]) == ParseResourceArg(Runnable(steps)[i].name)
  {
    if steps == [] || ParseResourceArg(steps[0].name).None? {
    } else {
      RegisteredParse(steps[1..]);
    }
  }

  /** Two lists of distinct names, put together, have distinct names exactly when they share none. */
  lemma DistinctTogether(a: Pipelines, b: Pipelines)
    requires Distinct(NamesOf(a)) && Distinct(NamesOf(b))
    ensures Distinct(NamesOf(a + b)) <==> forall i :: 0 <= i < |b| ==> !Contains(a, b[i].name)
  {
    var names := NamesOf(a + b);
    assert names == NamesOf(a) + NamesOf(b);
    forall i | 0 <= i < |b| && Contains(a, b[i].name) ensures !Distinct(names) {
      var k :| 0 <= k < |a| && a[k].name == b[i].name;
      assert names[k] == names[|a| + i];
    }
    if forall i :: 0 <= i < |b| ==> !Contains(a, b[i].name) {
      forall i, j | 0 <= i < j < |names| ensures names[i] != names[j] {
        if j < |a| {
          assert NamesOf(a)[i] != NamesOf(a)[j];
        } else if i >= |a| {
          assert NamesOf(b)[i - |a|] != NamesOf(b)[j - |a|];
        } else {
          assert a[i].name == names[i] && !Contains(a, b[j - |a|].name);
        }
      }
    }
  }

  lemma PrefixDistinct(p: Pipelines, q: Pipelines)
    requires q <= p && Distinct(NamesOf(p))
    ensures Distinct(NamesOf(q))
  {
    forall i, j | 0 <= i < j < |q| ensures NamesOf(q)[i] != NamesOf(q)[j] {
      assert NamesOf(p)[i] != NamesOf(p)[j];
    }
  }

  /** Steps of two lists of distinct names register no resource twice unless a name of the first runs in the second. */
  lemma {:induction false} TwoListsRegister(g: Pipelines, l: Pipelines)
    requires Distinct(NamesOf(g)) && Distinct(NamesOf(l))
    ensures Distinct(Registered(g + l)) <==>
      (AllParse(g) ==> forall i :: 0 <= i < |Runnable(l)| ==> !Contains(g, Runnable(l)[i].name))
  {
    DistinctHandlersExactlyWhen(g + l);
    RunnableConcat(g, l);
    if AllParse(g) {
      RunnableMeaning(l);
      PrefixDistinct(l, Runnable(l));
      DistinctTogether(g, Runnable(l));
    } else {
      RunnableMeaning(g);
      PrefixDistinct(g, Runnable(g));
    }
  }

  /**
    Exactly when no resource gets a second handler, from lists that shared no name: unless the
    last ADDED or DELETED event of a local name that runs was ADDED. A local name runs when it is
    wanted and every step up to it parses.
   */
  lemma {:induction false} OneHandlerExactlyWhen(
      global: Pipelines, local: Pipelines, evs: seq<CrdEvent>, resources: set<string>)
    requires Apart(global, local)
    ensures
      var g, l := Filter(Watch(global, evs), Wanted(resources)), Filter(local, Wanted(resources));
      Distinct(Registered(Steps(Watch(global, evs), local, resources))) <==>
        (AllParse(g) ==> forall i :: 0 <= i < |Runnable(l)| ==> LastSays(evs, Runnable(l)[i].name) != Some(ADDED))
  {
    var g, l := Filter(Watch(global, evs), Wanted(resources)), Filter(local, Wanted(resources));
    LastEventWins(global, evs, "");
    FilterKeepsDistinct(Watch(global, evs), Wanted(resources));
    FilterKeepsDistinct(local, Wanted(resources));
    TwoListsRegister(g, l);
    assert Steps(Watch(global, evs), local, resources) == g + l;
    RunnableMeaning(l);
    forall i | 0 <= i < |Runnable(l)|
      ensures Contains(g, Runnable(l)[i].name) <==> LastSays(evs, Runnable(l)[i].name) == Some(ADDED)
    {
      assert Runnable(l)[i] == l[i];
      RunsInBoth(global, local, evs, resources, i);
    }
  }

  lemma {:induction false} RunsInBoth(
      global: Pipelines, local: Pipelines, evs: seq<CrdEvent>, resources: set<string>, i: nat)
    requires Apart(global, local) && i < |Filter(local, Wanted(resources))|
    ensures
      var name := Filter(local, Wanted(resources))[i].name;
      Contains(Filter(Watch(global, evs), Wanted(resources)), name) <==> LastSays(evs, name) == Some(ADDED)
  {
    var l := Filter(local, Wanted(resources));
    var name := l[i].name;
    assert Contains(l, name);
    FilterWanted(local, resources, name);
    FilterWanted(Watch(global, evs), resources, name);
    LastEventWins(global, evs, name);
    var j :| 0 <= j < |local| && local[j].name == name;
    assert !Contains(global, name);
  }

  // ----------------------------------------------------------- writes per event

  /** How many handlers are registered on the resource. */
  function HandlersOn(handlers: seq<GVR>, g: GVR): nat {
    if handlers == [] then 0 else (if handlers[0] == g then 1 else 0) + HandlersOn(handlers[1..], g)
  }

  /** How many handlers write an event of this type on the resource: each one whose pipeline lists the type. */
  function WritesOn(configs: Pipelines, g: GVR, t: EventType): nat {
    if configs == [] then 0
    else
      (if ParseResourceArg(configs[0].name) == Some(g) && t.Wire() in configs[0].events then 1 else 0)
      + WritesOn(configs[1..], g, t)
  }

  predicate Publishes(configs: Pipelines, t: EventType) {
    forall i :: 0 <= i < |configs| ==> t.Wire() in configs[i].events
  }

  /** An event is written at most once per handler of its resource, exactly so when every pipeline lists its type. */
  lemma {:induction false} WritesAreHandlers(steps: Pipelines, g: GVR, t: EventType)
    ensures WritesOn(Runnable(steps), g, t) <= HandlersOn(Registered(steps), g)
    ensures Publishes(steps, t) ==> WritesOn(Runnable(steps), g, t) == HandlersOn(Registered(steps), g)
  {
    if steps == [] || ParseResourceArg(steps[0].name).None? {
    } else {
      WritesAreHandlers(steps[1..], g, t);
      assert Runnable(steps)[1..] == Runnable(steps[1..]) && Registered(steps)[1..] == Registered(steps[1..]);
      assert Publishes(steps, t) ==> Publishes(steps[1..], t);
    }
  }

  lemma {:induction false} HandlersOnMember(handlers: seq<GVR>, g: GVR)
    ensures HandlersOn(handlers, g) > 0 <==> g in handlers
  {
    if handlers == [] {
    } else {
      HandlersOnMember(handlers[1..], g);
    }
  }

  ghost predicate AtMostOneOn(handlers: seq<GVR>) {
    forall g :: HandlersOn(handlers, g) <= 1
  }

  lemma AtMostOneCons(handlers: seq<GVR>)
    requires handlers != []
    ensures AtMostOneOn(handlers) <==> AtMostOneOn(handlers[1..]) && handlers[0] !in handlers[1..]
  {
    var first, rest := handlers[0], handlers[1..];
    HandlersOnMember(rest, first);
    forall g ensures HandlersOn(handlers, g) == (if g == first then 1 else 0) + HandlersOn(rest, g) {
    }
    if AtMostOneOn(handlers) {
      assert HandlersOn(handlers, first) <= 1;
      forall g ensures HandlersOn(rest, g) <= 1 {
        assert HandlersOn(handlers, g) <= 1;
      }
    }
    if AtMostOneOn(rest) && first !in rest {
      forall g ensures HandlersOn(handlers, g) <= 1 {
        assert HandlersOn(rest, g) <= 1;
      }
    }
  }

  lemma {:induction false} DistinctCounts(handlers: seq<GVR>)
    ensures Distinct(handlers) <==> AtMostOneOn(handlers)
  {
    if handlers == [] {
    } else {
      DistinctCounts(handlers[1..]);
      DistinctCons(handlers);
      AtMostOneCons(handlers);
    }
  }

  lemma DistinctCons(s: seq<GVR>)
    requires s != []
    ensures Distinct(s) <==> Distinct(s[1..]) && s[0] !in s[1..]
  {
    var rest := s[1..];
    assert forall i :: 0 <= i < |rest| ==> rest[i] == s[i + 1];
    if Distinct(s) {
      forall i, j | 0 <= i < j < |rest| ensures rest[i] != rest[j] {
        assert s[i + 1] != s[j + 1];
      }
    }
    if Distinct(rest) && s[0] !in rest {
      forall i, j | 0 <= i < j < |s| ensures s[i] != s[j] {
        assert s[j] == rest[j - 1];
        assert i > 0 ==> s[i] == rest[i - 1];
      }
    }
  }

  /** An event of this type, on any resource, is written at most once. */
  ghost predicate AtMostOneWrite(steps: Pipelines, t: EventType) {
    forall g :: WritesOn(Runnable(steps), g, t) <= 1
  }

  /**
    Exactly when every informer event causes at most one write, where all pipelines list the event
    type: when no resource has a second handler.
   */
  lemma {:induction false} OneWriteExactlyWhen(steps: Pipelines, t: EventType)
    requires Publishes(steps, t)
    ensures AtMostOneWrite(steps, t) <==> Distinct(Registered(steps))
  {
    forall g ensures WritesOn(Runnable(steps), g, t) == HandlersOn(Registered(steps), g) {
      WritesAreHandlers(steps, g, t);
    }
    DistinctCounts(Registered(steps));
    if AtMostOneOn(Registered(steps)) {
      forall g ensures WritesOn(Runnable(steps), g, t) <= 1 {
        assert HandlersOn(Registered(steps), g) <= 1;
      }
    }
    if AtMostOneWrite(steps, t) {
      forall g ensures HandlersOn(Registered(steps), g) <= 1 {
        assert WritesOn(Runnable(steps), g, t) <= 1;
      }
    }
  }

  // ----------------------------------------------------------- what the filters keep

  /** `at` are the positions, ascending, of exactly the entries with this property of their name. */
  ghost predicate PositionsOf(p: Pipelines, at: seq<nat>, chosen: string -> bool) {
    && (forall k :: 0 <= k < |at| ==> at[k] < |p|)
    && (forall k, l :: 0 <= k < l < |at| ==> at[k] < at[l])
    && (forall i: nat :: i in at <==> i < |p| && chosen(p[i].name))
  }

  ghost predicate Lists(whiteList: seq<ResourceConfig>, name: string) {
    exists j :: 0 <= j < |whiteList| && whiteList[j].resource == name
  }

  /** The events of the first whitelist entry of the name. */
  ghost predicate FirstEvents(whiteList: seq<ResourceConfig>, name: string, events: seq<string>) {
    exists j :: 0 <= j < |whiteList| && whiteList[j].resource == name && whiteList[j].events == events
      && forall i :: 0 <= i < j ==> whiteList[i].resource != name
  }

  /** The name up to its first dot is in the set. */
  ghost predicate StartsIn(name: string, resources: set<string>) {
    exists head :: head in resources && '.' !in head && (name == head || head + "." <= name)
  }

  lemma StartsInExactlyWhen(name: string, resources: set<string>)
    ensures StartsIn(name, resources) <==> CutFirst(name, '.').0 in resources
  {
    JoinCutFirst(name, '.');
    var (head, tail) := CutFirst(name, '.');
    if head in resources {
      assert tail.None? ==> name == head;
      assert tail.Some? ==> name == head + "." + tail.value && head + "." <= name;
    }
    forall h | h in resources && '.' !in h && (name == h || h + "." <= name) ensures h == head {
      if name == h {
        UncutName(name);
      } else {
        assert name == h + ['.'] + name[|h| + 1..];
        CutFirstJoin(h, '.', name[|h| + 1..]);
      }
    }
  }

  lemma {:induction false} UncutName(name: string)
    requires '.' !in name
    ensures CutFirst(name, '.').0 == name
  {
    if name == [] {
    } else {
      UncutName(name[1..]);
      assert [name[0]] + name[1..] == name;
    }
  }

  /** A whitelist keeps exactly the pipelines it names, in order, with the events it gives them. */
  lemma {:induction false} WhitelistExactly(p: Pipelines, whiteList: seq<ResourceConfig>) returns (at: seq<nat>)
    ensures
      var r := Filter(p, WhiteListed(whiteList));
      && |at| == |r| && PositionsOf(p, at, name => Lists(whiteList, name))
      && forall k :: 0 <= k < |r| ==>
           && r[k].name == p[at[k]].name && r[k].publishTo == p[at[k]].publishTo
           && FirstEvents(whiteList, r[k].name, r[k].events)
  {
    at := Kept(p, WhiteListed(whiteList));
    FilterKeepsOrder(p, WhiteListed(whiteList));
    forall i | 0 <= i < |p| ensures WhiteListed(whiteList)(p[i]).Some? <==> Lists(whiteList, p[i].name) {
      IndexOfMeaning(whiteList, p[i].name);
    }
    var r := Filter(p, WhiteListed(whiteList));
    forall k | 0 <= k < |r| ensures FirstEvents(whiteList, r[k].name, r[k].events) {
      IndexOfMeaning(whiteList, p[at[k]].name);
    }
  }

  /** A blacklist keeps exactly the pipelines it does not name, in order; they publish every event type. */
  lemma {:induction false} BlacklistExactly(p: Pipelines, blackList: seq<string>) returns (at: seq<nat>)
    ensures
      var r := Filter(p, NotBlackListed(blackList));
      && |at| == |r| && PositionsOf(p, at, name => name !in blackList)
      && forall k :: 0 <= k < |r| ==>
           && r[k].name == p[at[k]].name && r[k].publishTo == p[at[k]].publishTo
           && r[k].events == ["ADDED", "MODIFIED", "DELETED"]
  {
    at := Kept(p, NotBlackListed(blackList));
    FilterKeepsOrder(p, NotBlackListed(blackList));
  }

  /** A resource restriction keeps exactly the pipelines whose name starts with one of its resources, unaltered. */
  lemma {:induction false} RestrictionExactly(p: Pipelines, resources: set<string>) returns (at: seq<nat>)
    ensures
      var r := Filter(p, Wanted(resources));
      && |at| == |r| && PositionsOf(p, at, name => resources == {} || StartsIn(name, resources))
      && forall k :: 0 <= k < |r| ==> r[k] == p[at[k]]
  {
    at := Kept(p, Wanted(resources));
    FilterKeepsOrder(p, Wanted(resources));
    forall i | 0 <= i < |p| ensures
      Wanted(resources)(p[i]).Some? <==> resources == {} || StartsIn(p[i].name, resources)
    {
      StartsInExactlyWhen(p[i].name, resources);
    }
  }

  /** Exactly which names a discovery's stages hold. */
  lemma {:induction false} StepsHoldExactly(global: Pipelines, local: Pipelines, resources: set<string>, name: string)
    ensures Contains(Steps(global, local, resources), name) <==>
      (Contains(global, name) || Contains(local, name)) && (resources == {} || StartsIn(name, resources))
  {
    StepsAreWatched(global, local, resources, name);
    StartsInExactlyWhen(name, resources);
  }
}
