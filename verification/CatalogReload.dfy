/** The repository catalog and its reload protocol (crates/proxy/src/catalog.rs,
    crates/proxy/src/state.rs, crates/proxy/src/main.rs). */
module CatalogReload {
  import opened Text
  import Classifier

  datatype Repository = Repository(name: string, format: string, osvEcosystem: Option<string>)

  datatype Catalog = Catalog(repositories: map<string, Repository>, generation: nat)

  datatype Config = Config(dockerBaseUrl: Option<string>, dockerRepository: Option<string>)
  {
    predicate DockerConfigured() {
      dockerBaseUrl.Some? && dockerRepository.Some?
    }
  }

  // ---- Building one catalog ----

  /** Later entries of one name win. */
  function ByName(items: seq<Repository>): map<string, Repository> {
    if items == [] then map[]
    else ByName(items[..|items| - 1])[items[|items| - 1].name := items[|items| - 1]]
  }

  ghost predicate WellNamed(items: seq<Repository>) {
    items != [] && forall i :: 0 <= i < |items| ==> !Blank(items[i].name) && !Blank(items[i].format)
  }

  /** Each name maps to the last listed repository of that name, and nothing else is mapped. */
  lemma {:induction false} ByNameMeaning(items: seq<Repository>, name: string)
    ensures name in ByName(items) <==> exists i :: 0 <= i < |items| && items[i].name == name
    ensures name in ByName(items) ==>
              exists i :: 0 <= i < |items| && items[i].name == name && ByName(items)[name] == items[i]
                          && forall j :: i < j < |items| ==> items[j].name != name
  {
    if items != [] {
      var n := |items| - 1;
      ByNameMeaning(items[..n], name);
      if items[n].name == name {
        assert items[n].name == name;
      } else if name in ByName(items[..n]) {
        var i :| 0 <= i < |items[..n]| && items[..n][i].name == name && ByName(items[..n])[name] == items[..n][i]
          && forall j :: i < j < |items[..n]| ==> items[..n][j].name != name;
        assert items[i] == items[..n][i];
        forall j | i < j < |items|
          ensures items[j].name != name
        {
          if j < n {
            assert items[j] == items[..n][j];
          }
        }
      } else {
        forall i | 0 <= i < |items|
          ensures items[i].name != name
        {
          if i < n {
            assert items[i] == items[..n][i];
          }
        }
      }
    }
  }

  method NewCatalog(items: seq<Repository>, generation: nat) returns (r: Option<Catalog>)
    ensures r.Some? <==> WellNamed(items)
    ensures r.Some? ==> r.value == Catalog(ByName(items), generation)
  {
    if items == [] {
      return None;
    }
    var byName: map<string, Repository> := map[];
    for k := 0 to |items|
      invariant byName == ByName(items[..k])
      invariant forall i :: 0 <= i < k ==> !Blank(items[i].name) && !Blank(items[i].format)
    {
      TrimShape(items[k].name);
      TrimShape(items[k].format);
      if Trim(items[k].name) == [] || Trim(items[k].format) == [] {
        return None;
      }
      assert items[..k + 1][..k] == items[..k];
      byName := byName[items[k].name := items[k]];
    }
    assert items[..|items|] == items;
    return Some(Catalog(byName, generation));
  }

  predicate ValidConfigured(c: Catalog, cfg: Config) {
    cfg.DockerConfigured() ==>
      && cfg.dockerRepository.value in c.repositories
      && Classifier.NormalizeFormat(c.repositories[cfg.dockerRepository.value].format) == "docker"
  }

  /** What a load yields: nothing, or a catalog that passed both validations. */
  ghost predicate Loads(items: seq<Repository>, cfg: Config, generation: nat, c: Catalog) {
    WellNamed(items) && c == Catalog(ByName(items), generation) && ValidConfigured(c, cfg)
  }

  ghost predicate Sound(c: Catalog, cfg: Config) {
    c.repositories != map[] && ValidConfigured(c, cfg)
  }

  lemma LoadedIsSound(items: seq<Repository>, cfg: Config, generation: nat, c: Catalog)
    requires Loads(items, cfg, generation, c)
    ensures Sound(c, cfg) && c.generation == generation
  {
    assert items[|items| - 1].name in c.repositories;
  }

  // ---- The protocol ----

  type TaskId = nat

  /** Where a reload is: waiting for the mutex, holding it, waiting for Nexus with the snapshot it
      read, or about to swap. */
  datatype Phase = Waiting | Holding | Loading(snapshot: Catalog, next: nat) | Ready(catalog: Catalog)

  /** `history` lists the installed catalogs, `seen` the generations readers got. */
  datatype State = State(catalog: Catalog, holder: Option<TaskId>, tasks: map<TaskId, Phase>,
                         history: seq<Catalog>, seen: seq<nat>)

  datatype Label =
    | Request(t: TaskId)
    | Acquire(t: TaskId)
    | ReadCurrent(t: TaskId)
    | LoadFails(t: TaskId)
    | LoadSucceeds(t: TaskId, items: seq<Repository>, loaded: Catalog)
    | Install(t: TaskId)
    | Cancel(t: TaskId)
    | Read

  ghost predicate Enabled(s: State, cfg: Config, l: Label) {
    match l
    case Request(t) => t !in s.tasks
    case Acquire(t) => t in s.tasks && s.tasks[t].Waiting? && s.holder.None?
    case ReadCurrent(t) => t in s.tasks && s.tasks[t].Holding?
    case LoadFails(t) => t in s.tasks && s.tasks[t].Loading?
    case LoadSucceeds(t, items, loaded) =>
      t in s.tasks && s.tasks[t].Loading? && Loads(items, cfg, s.tasks[t].next, loaded)
    case Install(t) => t in s.tasks && s.tasks[t].Ready?
    case Cancel(t) => t in s.tasks && (s.tasks[t].Waiting? || s.tasks[t].Loading?)
    case Read => true
  }

  /** Leave the protocol, giving the mutex back if it was held. */
  function Leave(s: State, t: TaskId): State {
    s.(tasks := s.tasks - {t}, holder := if s.holder == Some(t) then None else s.holder)
  }

  ghost function Step(s: State, cfg: Config, l: Label): State
    requires Enabled(s, cfg, l)
  {
    match l
    case Request(t) => s.(tasks := s.tasks[t := Waiting])
    case Acquire(t) => s.(tasks := s.tasks[t := Holding], holder := Some(t))
    case ReadCurrent(t) =>
      if s.catalog.generation + 1 > U64_MAX then Leave(s, t)
      else s.(tasks := s.tasks[t := Loading(s.catalog, s.catalog.generation + 1)])
    case LoadFails(t) => Leave(s, t)
    case LoadSucceeds(t, _, loaded) => s.(tasks := s.tasks[t := Ready(loaded)])
    case Install(t) =>
      Leave(s, t).(catalog := s.tasks[t].catalog, history := s.history + [s.tasks[t].catalog])
    case Cancel(t) => Leave(s, t)
    case Read => s.(seen := s.seen + [s.catalog.generation])
  }

  /** A run of enabled steps after a first successful load. */
  ghost predicate IsRun(cfg: Config, items: seq<Repository>, states: seq<State>, labels: seq<Label>) {
    && |states| == |labels| + 1
    && Loads(items, cfg, 1, states[0].catalog)
    && states[0] == State(states[0].catalog, None, map[], [states[0].catalog], [])
    && forall i :: 0 <= i < |labels| ==>
         Enabled(states[i], cfg, labels[i]) && states[i + 1] == Step(states[i], cfg, labels[i])
  }

  ghost predicate Invariant(s: State, cfg: Config) {
    && s.history != [] && s.history[|s.history| - 1] == s.catalog
    && (forall i :: 0 <= i < |s.history| ==> s.history[i].generation == i + 1 && Sound(s.history[i], cfg))
    && (forall t :: t in s.tasks && !s.tasks[t].Waiting? ==> s.holder == Some(t))
    && (forall t :: t in s.tasks && s.tasks[t].Loading? ==>
          s.tasks[t].snapshot == s.catalog && s.tasks[t].next == s.catalog.generation + 1)
    && (forall t :: t in s.tasks && s.tasks[t].Ready? ==>
          s.tasks[t].catalog.generation == s.catalog.generation + 1 && Sound(s.tasks[t].catalog, cfg))
    && (forall i :: 0 <= i < |s.seen| ==> s.seen[i] <= s.catalog.generation)
    && (forall i, j :: 0 <= i < j < |s.seen| ==> s.seen[i] <= s.seen[j])
  }

  lemma InvariantStep(s: State, cfg: Config, l: Label)
    requires Invariant(s, cfg) && Enabled(s, cfg, l)
    ensures Invariant(Step(s, cfg, l), cfg)
  {
    hide Sound, Loads;
    if l.LoadSucceeds? {
      LoadedIsSound(l.items, cfg, s.tasks[l.t].next, l.loaded);
    }
  }

  /** Over every interleaving of reloads, failures, cancellations and reads: the catalogs ever
      installed carry the generations 1, 2, 3, ... with none skipped, repeated or overwritten;
      readers never see a generation decrease; and every installed catalog is sound. */
  lemma {:induction false} ReloadSafety(cfg: Config, items: seq<Repository>, states: seq<State>, labels: seq<Label>,
                                        i: nat)
    requires IsRun(cfg, items, states, labels) && i < |states|
    ensures Invariant(states[i], cfg)
    ensures states[i].catalog.generation == |states[i].history|
    ensures i > 0 ==> states[i - 1].catalog.generation <= states[i].catalog.generation
    ensures i > 0 ==> states[i - 1].history <= states[i].history
    ensures Sound(states[i].catalog, cfg)
  {
    if i == 0 {
      LoadedIsSound(items, cfg, 1, states[0].catalog);
    } else {
      ReloadSafety(cfg, items, states, labels, i - 1);
      assert states[i - 1 + 1] == Step(states[i - 1], cfg, labels[i - 1]);
      InvariantStep(states[i - 1], cfg, labels[i - 1]);
    }
  }

  /** Only an installation changes what readers see, and it adds exactly one generation; the
      mutex makes the snapshot it started from still current. */
  lemma OnlyInstallChangesTheCatalog(s: State, cfg: Config, l: Label)
    requires Invariant(s, cfg) && Enabled(s, cfg, l)
    ensures l.Install? ==> Step(s, cfg, l).catalog.generation == s.catalog.generation + 1
    ensures !l.Install? ==> Step(s, cfg, l).catalog == s.catalog && Step(s, cfg, l).history == s.history
    ensures l.LoadFails? || l.Cancel? || l.Install? ==>
              l.t !in Step(s, cfg, l).tasks && Step(s, cfg, l).holder != Some(l.t)
  {
  }

  // ---- The Docker handler ----

  datatype DockerRepository = Misconfigured | Unscanned | Scanned(repository: Repository)

  function DockerRepositoryAndScanner(cfg: Config, c: Catalog, scannerMapped: bool): DockerRepository {
    if cfg.dockerRepository.None? || cfg.dockerRepository.value !in c.repositories then Misconfigured
    else if Classifier.NormalizeFormat(c.repositories[cfg.dockerRepository.value].format) != "docker" then Misconfigured
    else if scannerMapped then Scanned(c.repositories[cfg.dockerRepository.value]) else Unscanned
  }

  /** The handler's repository: misconfigured exactly if no repository is configured, it is missing or its
      format is not Docker's; otherwise it is scanned exactly if a scanner is mapped. */
  lemma DockerRepositoryExactly(cfg: Config, c: Catalog, scannerMapped: bool)
    ensures var r := DockerRepositoryAndScanner(cfg, c, scannerMapped);
            && (r.Misconfigured? <==>
                  || cfg.dockerRepository.None? || cfg.dockerRepository.value !in c.repositories
                  || Classifier.NormalizeFormat(c.repositories[cfg.dockerRepository.value].format) != "docker")
            && (!r.Misconfigured? && scannerMapped ==> r == Scanned(c.repositories[cfg.dockerRepository.value]))
            && (!r.Misconfigured? && !scannerMapped ==> r == Unscanned)
  {
  }

  /** A reload that finds the mutex free, and whose listing is loadable, installs exactly that listing under
      the next generation and frees the mutex again. */
  lemma ReloadInstalls(s: State, cfg: Config, t: TaskId, items: seq<Repository>)
    requires Invariant(s, cfg) && t !in s.tasks && s.holder.None? && s.catalog.generation < U64_MAX
    requires Loads(items, cfg, s.catalog.generation + 1, Catalog(ByName(items), s.catalog.generation + 1))
    ensures && Enabled(s, cfg, Request(t))
            && var s1 := Step(s, cfg, Request(t));
            && Enabled(s1, cfg, Acquire(t))
            && var s2 := Step(s1, cfg, Acquire(t));
            && Enabled(s2, cfg, ReadCurrent(t))
            && var s3 := Step(s2, cfg, ReadCurrent(t));
            && var loaded := Catalog(ByName(items), s.catalog.generation + 1);
            && Enabled(s3, cfg, LoadSucceeds(t, items, loaded))
            && var s4 := Step(s3, cfg, LoadSucceeds(t, items, loaded));
            && Enabled(s4, cfg, Install(t))
            && Step(s4, cfg, Install(t)).catalog == loaded && Step(s4, cfg, Install(t)).holder.None?
  {
  }

  /** In Docker mode the misconfigured answer is unreachable in every run. */
  lemma DockerNeverMisconfigured(cfg: Config, items: seq<Repository>, states: seq<State>, labels: seq<Label>, i: nat,
                                 scannerMapped: bool)
    requires cfg.DockerConfigured()
    requires IsRun(cfg, items, states, labels) && i < |states|
    ensures DockerRepositoryAndScanner(cfg, states[i].catalog, scannerMapped) != Misconfigured
  {
    ReloadSafety(cfg, items, states, labels, i);
  }
}
