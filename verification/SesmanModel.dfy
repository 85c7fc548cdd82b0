/** The persisted session registry and the process table it is checked against
    (src/sesman/state.rs, src/sesman/process.rs and the read-only part of src/sesman/mod.rs). */
module SesmanModel {
  import opened Common

  // ---- The system as sesman observes it ----------------------------------------------------------------

  /** A process table entry. `lineage` tells process groups apart that had the same id one after
      the other; nothing in sesman can see it. */
  datatype Process = Process(
    ticks: nat, realUid: nat, effectiveUid: nat, pgid: int, zombie: bool, startedAt: Option<int>, lineage: nat)

  /** One instant: the wall clock in milliseconds, the kernel boot id, the process table and the
      sockets that accept connections; and what the environment has in store for an operation
      made at this instant: whether an I/O call fails, how many polls fit before a deadline, how
      long the next system call takes, which process a spawn yields, and what of a process
      cannot be read just then. */
  datatype World = World(
    clock: int, boot: string, table: map<int, Process>, sockets: set<string>,
    fault: bool, polls: nat, lag: nat, child: Option<int>, hidden: set<IdentityField>)

  datatype IdentityField = StartTicks | BootId | Uid | Pgid

  /** Everything that happens, instant by instant; the environment is free between any two. */
  type Timeline = nat -> World

  ghost predicate ClockFrom(tl: Timeline, a: nat) {
    forall b: nat :: a <= b ==> tl(a).clock <= tl(b).clock
  }

  /** The clock does not run backwards. */
  ghost predicate ClockMonotone(tl: Timeline) {
    forall a: nat :: ClockFrom(tl, a)
  }

  // ---- Configuration and registry --------------------------------------------------------------------------

  datatype Readiness = ProcessAlive | UnixSocket(path: string) | NoCheck

  /** `command` is the command followed by its arguments. */
  datatype ComponentConfig = ComponentConfig(name: string, command: seq<string>, readiness: Readiness, required: bool)

  datatype Config = Config(
    name: string, user: string, uid: nat, gid: nat, runtimeDir: string, idleTimeout: nat,
    components: seq<ComponentConfig>)

  /** What validation guarantees of the component list. */
  ghost predicate Validated(cfg: Config) {
    && |cfg.components| > 0
    && (forall i :: 0 <= i < |cfg.components| ==> cfg.components[i].command != [])
    && (forall i, j :: 0 <= i < j < |cfg.components| ==> cfg.components[i].name != cfg.components[j].name)
  }

  datatype ComponentState = ComponentState(
    name: string, pid: int, command: seq<string>, startedAt: int,
    startTicks: Option<nat>, bootId: Option<string>, uid: Option<nat>, pgid: Option<int>, processGroup: bool)

  /** Whose session the registry describes, and of which boot. */
  datatype Header = Header(
    version: nat, name: string, user: string, runtimeDir: string,
    bootId: Option<string>, uid: Option<nat>, gid: Option<nat>)

  datatype Presence = Presence(activeClients: nat, lastDisconnected: Option<int>, idleDeadline: Option<int>)

  datatype SessionState = SessionState(header: Header, presence: Presence, components: seq<ComponentState>)

  const STATE_VERSION: nat := 2
  const MAX_CLIENTS: nat := 0xffff_ffff

  // ---- Process identity ------------------------------------------------------------------------------------

  predicate IsAlive(w: World, pid: int) {
    pid > 0 && pid in w.table && !w.table[pid].zombie
  }

  /** Some process, even a zombie, is in the group. */
  predicate GroupAlive(w: World, pid: int) {
    pid > 0 && exists p :: p in w.table && w.table[p].pgid == pid
  }

  datatype Purpose = ForStatus | ForSignal

  predicate FullyHardened(c: ComponentState) {
    c.startTicks.Some? && c.bootId.Some? && c.uid.Some? && c.pgid.Some?
  }

  predicate StartedWithin5s(p: Process, startedAt: int) {
    p.startedAt.Some? && -5_000 <= p.startedAt.value - startedAt <= 5_000
  }

  predicate Matches(w: World, c: ComponentState, purpose: Purpose) {
    && IsAlive(w, c.pid) && c.command != []
    && (purpose == ForSignal ==> FullyHardened(c))
    && (c.bootId.Some? ==> c.bootId.value == w.boot)
    && var p := w.table[c.pid];
       && (c.uid.Some? ==> p.realUid == c.uid.value || p.effectiveUid == c.uid.value)
       && (c.pgid.Some? ==> p.pgid == c.pgid.value)
       && (if c.startTicks.Some? then p.ticks == c.startTicks.value else StartedWithin5s(p, c.startedAt))
  }

  function HeaderFor(cfg: Config, boot: string): Header {
    Header(STATE_VERSION, cfg.name, cfg.user, cfg.runtimeDir, Some(boot), Some(cfg.uid), Some(cfg.gid))
  }

  predicate Belongs(cfg: Config, w: World, st: SessionState) { st.header == HeaderFor(cfg, w.boot) }

  // ---- Status -------------------------------------------------------------------------------------------------

  datatype Health = Missing | Healthy | Degraded | Dead

  datatype Status = Status(health: Health, state: Option<SessionState>, dead: seq<string>)

  function Find(components: seq<ComponentState>, name: string): Option<ComponentState> {
    if components == [] then None
    else if components[0].name == name then Some(components[0])
    else Find(components[1..], name)
  }

  function FindConfig(components: seq<ComponentConfig>, name: string): Option<ComponentConfig> {
    if components == [] then None
    else if components[0].name == name then Some(components[0])
    else FindConfig(components[1..], name)
  }

  predicate Accepts(w: World, readiness: Readiness) {
    readiness.UnixSocket? ==> readiness.path in w.sockets
  }

  /** The recorded component runs the configured command, is authenticated and is ready. */
  predicate Serves(w: World, configured: ComponentConfig, recorded: ComponentState) {
    recorded.command == configured.command && Matches(w, recorded, ForStatus) && Accepts(w, configured.readiness)
  }

  datatype Scan = Scan(dead: seq<string>, alive: nat)

  /** The loop over the configured components, the i-th looked at i instants after t. */
  function ScanConfigured(cfg: Config, tl: Timeline, t: nat, st: SessionState, n: nat): Scan
    requires n <= |cfg.components|
  {
    if n == 0 then Scan([], 0)
    else
      var before := ScanConfigured(cfg, tl, t, st, n - 1);
      var configured := cfg.components[n - 1];
      var recorded := Find(st.components, configured.name);
      if recorded.None? then
        if configured.required then before.(dead := before.dead + [configured.name]) else before
      else if Serves(tl(t + n - 1), configured, recorded.value) then before.(alive := before.alive + 1)
      else before.(dead := before.dead + [recorded.value.name])
  }

  function Unknown(cfg: Config, components: seq<ComponentState>): seq<string> {
    if components == [] then []
    else
      var before := Unknown(cfg, components[..|components| - 1]);
      var last := components[|components| - 1].name;
      if FindConfig(cfg.components, last).None? then before + [last] else before
  }

  /** `status`, for a registry read at instant t. */
  function StatusAt(cfg: Config, tl: Timeline, t: nat, registry: Option<SessionState>): Status {
    if registry.None? then Status(Missing, None, [])
    else
      var st := registry.value;
      if !Belongs(cfg, tl(t), st) then Status(Dead, registry, ["session-registry"])
      else
        var scan := ScanConfigured(cfg, tl, t, st, |cfg.components|);
        var dead := scan.dead + Unknown(cfg, st.components);
        Status(if dead == [] then Healthy else if scan.alive == 0 then Dead else Degraded, registry, dead)
  }

  predicate CanServe(cfg: Config, status: Status) {
    || status.health == Healthy
    || (status.health == Degraded && forall k :: 0 <= k < |status.dead| ==>
          var c := FindConfig(cfg.components, status.dead[k]); c.Some? && !c.value.required)
  }

  // ---- When a session can be served ------------------------------------------------------------------------------

  /** The recorded counterpart of the i-th configured component serves, when it is looked at. */
  predicate ServesAt(cfg: Config, tl: Timeline, t: nat, st: SessionState, i: nat)
    requires i < |cfg.components|
  {
    var recorded := Find(st.components, cfg.components[i].name);
    recorded.Some? && Serves(tl(t + i), cfg.components[i], recorded.value)
  }

  predicate RecordedAt(cfg: Config, st: SessionState, i: nat)
    requires i < |cfg.components|
  {
    Find(st.components, cfg.components[i].name).Some?
  }

  lemma {:induction false} FindName(components: seq<ComponentState>, name: string)
    ensures var r := Find(components, name); r.Some? ==> r.value.name == name && r.value in components
  {
    if components != [] && components[0].name != name {
      FindName(components[1..], name);
    }
  }

  lemma {:induction false} FindConfigAt(components: seq<ComponentConfig>, i: nat)
    requires i < |components|
    requires forall j, k :: 0 <= j < k < |components| ==> components[j].name != components[k].name
    ensures FindConfig(components, components[i].name) == Some(components[i])
  {
    if i > 0 {
      assert components[0].name != components[i].name;
      FindConfigAt(components[1..], i - 1);
    }
  }

  predicate Optional(cfg: Config, name: string) {
    var c := FindConfig(cfg.components, name); c.Some? && !c.value.required
  }

  ghost predicate AllOptional(cfg: Config, names: seq<string>) {
    forall k :: 0 <= k < |names| ==> Optional(cfg, names[k])
  }

  predicate Expected(cfg: Config, st: SessionState, i: nat)
    requires i < |cfg.components|
  {
    cfg.components[i].required || RecordedAt(cfg, st, i)
  }

  /** One more component: it serves, or it is dead, or it is optional and was never started. */
  lemma {:induction false} ScanStep(cfg: Config, tl: Timeline, t: nat, st: SessionState, n: nat)
    requires Validated(cfg) && n < |cfg.components|
    ensures var before, after := ScanConfigured(cfg, tl, t, st, n), ScanConfigured(cfg, tl, t, st, n + 1);
      if ServesAt(cfg, tl, t, st, n) then after == before.(alive := before.alive + 1)
      else if Expected(cfg, st, n) then after == before.(dead := before.dead + [cfg.components[n].name])
      else after == before
  {
    FindName(st.components, cfg.components[n].name);
  }

  lemma {:induction false} ScanAlive(cfg: Config, tl: Timeline, t: nat, st: SessionState, n: nat)
    requires Validated(cfg) && n <= |cfg.components|
    ensures ScanConfigured(cfg, tl, t, st, n).alive > 0 <==> exists i :: 0 <= i < n && ServesAt(cfg, tl, t, st, i)
  {
    if n > 0 {
      ScanAlive(cfg, tl, t, st, n - 1);
      ScanStep(cfg, tl, t, st, n - 1);
    }
  }

  lemma {:induction false} ScanDead(cfg: Config, tl: Timeline, t: nat, st: SessionState, n: nat)
    requires Validated(cfg) && n <= |cfg.components|
    ensures ScanConfigured(cfg, tl, t, st, n).dead == [] <==>
      forall i :: 0 <= i < n && Expected(cfg, st, i) ==> ServesAt(cfg, tl, t, st, i)
  {
    if n > 0 {
      ScanDead(cfg, tl, t, st, n - 1);
      ScanStep(cfg, tl, t, st, n - 1);
    }
  }

  /** Only optional components are dead exactly if every required one serves. */
  lemma {:induction false} ScanOptional(cfg: Config, tl: Timeline, t: nat, st: SessionState, n: nat)
    requires Validated(cfg) && n <= |cfg.components|
    ensures AllOptional(cfg, ScanConfigured(cfg, tl, t, st, n).dead) <==>
      forall i :: 0 <= i < n && cfg.components[i].required ==> ServesAt(cfg, tl, t, st, i)
  {
    if n > 0 {
      ScanOptional(cfg, tl, t, st, n - 1);
      ScanStep(cfg, tl, t, st, n - 1);
      FindConfigAt(cfg.components, n - 1);
      AllOptionalAppend(cfg, ScanConfigured(cfg, tl, t, st, n - 1).dead, cfg.components[n - 1].name);
    }
  }

  lemma {:induction false} AllOptionalAppend(cfg: Config, names: seq<string>, last: string)
    ensures AllOptional(cfg, names + [last]) <==> AllOptional(cfg, names) && Optional(cfg, last)
  {
    var all := names + [last];
    assert all[|names|] == last;
    assert forall k :: 0 <= k < |names| ==> all[k] == names[k];
  }

  lemma {:induction false} UnknownFinds(cfg: Config, components: seq<ComponentState>)
    ensures var unknown := Unknown(cfg, components);
      && (AllOptional(cfg, unknown) <==> unknown == [])
      && (unknown == [] <==> forall k :: 0 <= k < |components| ==> FindConfig(cfg.components, components[k].name).Some?)
  {
    if components != [] {
      var before := components[..|components| - 1];
      UnknownFinds(cfg, before);
      AllOptionalAppend(cfg, Unknown(cfg, before), components[|components| - 1].name);
    }
  }

  lemma {:induction false} AllOptionalConcat(cfg: Config, a: seq<string>, b: seq<string>)
    ensures AllOptional(cfg, a + b) <==> AllOptional(cfg, a) && AllOptional(cfg, b)
  {
    var all := a + b;
    assert forall k :: 0 <= k < |a| ==> all[k] == a[k];
    assert forall k :: 0 <= k < |b| ==> all[|a| + k] == b[k];
  }

  /** The registry is of this configuration and holds only components that it knows. */
  ghost predicate Known(cfg: Config, w: World, st: SessionState) {
    && st.header.version == 2 && st.header.name == cfg.name && st.header.user == cfg.user
    && st.header.runtimeDir == cfg.runtimeDir && st.header.bootId == Some(w.boot)
    && st.header.uid == Some(cfg.uid) && st.header.gid == Some(cfg.gid)
    && forall k :: 0 <= k < |st.components| ==> FindConfig(cfg.components, st.components[k].name).Some?
  }

  /** A session can be served exactly when its registry belongs to this configuration and holds no
      unknown component, every required component serves, and either every recorded optional
      one serves too or at least one component does. */
  lemma {:induction false} ServedExactly(cfg: Config, tl: Timeline, t: nat, st: SessionState)
    requires Validated(cfg)
    ensures CanServe(cfg, StatusAt(cfg, tl, t, Some(st))) <==>
      && Known(cfg, tl(t), st)
      && (forall i :: 0 <= i < |cfg.components| && cfg.components[i].required ==> ServesAt(cfg, tl, t, st, i))
      && ((forall i :: 0 <= i < |cfg.components| && RecordedAt(cfg, st, i) ==> ServesAt(cfg, tl, t, st, i))
          || (exists i :: 0 <= i < |cfg.components| && ServesAt(cfg, tl, t, st, i)))
  {
    if Belongs(cfg, tl(t), st) {
      var n := |cfg.components|;
      var scan, unknown := ScanConfigured(cfg, tl, t, st, n), Unknown(cfg, st.components);
      ScanAlive(cfg, tl, t, st, n);
      ScanDead(cfg, tl, t, st, n);
      ScanOptional(cfg, tl, t, st, n);
      UnknownFinds(cfg, st.components);
      AllOptionalConcat(cfg, scan.dead, unknown);
      var status := StatusAt(cfg, tl, t, Some(st));
      assert CanServe(cfg, status) <==>
        status.health == Healthy || (status.health == Degraded && AllOptional(cfg, status.dead));
    }
  }

  /** What is then known of a required component, at the instant it was looked at: a record of its
      name and command, a live process that is no zombie and agrees with every identity field on
      record, and a socket that accepts connections if it is to have one. */
  lemma {:induction false} ServedMeans(cfg: Config, tl: Timeline, t: nat, st: SessionState, i: nat)
      returns (c: ComponentState)
    requires Validated(cfg) && CanServe(cfg, StatusAt(cfg, tl, t, Some(st)))
    requires i < |cfg.components| && cfg.components[i].required
    ensures c in st.components && c.name == cfg.components[i].name && c.command == cfg.components[i].command
    ensures var w := tl(t + i);
      && c.pid > 0 && c.pid in w.table && !w.table[c.pid].zombie
      && (c.bootId.Some? ==> c.bootId.value == w.boot)
      && (c.uid.Some? ==> c.uid.value == w.table[c.pid].realUid || c.uid.value == w.table[c.pid].effectiveUid)
      && (c.pgid.Some? ==> c.pgid.value == w.table[c.pid].pgid)
      && (c.startTicks.Some? ==> c.startTicks.value == w.table[c.pid].ticks)
      && (c.startTicks.None? ==>
            && w.table[c.pid].startedAt.Some?
            && c.startedAt - 5_000 <= w.table[c.pid].startedAt.value <= c.startedAt + 5_000)
      && (cfg.components[i].readiness.UnixSocket? ==> cfg.components[i].readiness.path in w.sockets)
  {
    ServedExactly(cfg, tl, t, st);
    assert ServesAt(cfg, tl, t, st, i);
    FindName(st.components, cfg.components[i].name);
    c := Find(st.components, cfg.components[i].name).value;
  }

  /** A record that misses an identity field is never good enough to signal, and one without a command
      not even to count as alive. */
  lemma {:induction false} LegacyNeverSignalled(w: World, c: ComponentState, purpose: Purpose)
    requires c.command == [] || (purpose == ForSignal
               && (c.startTicks.None? || c.bootId.None? || c.uid.None? || c.pgid.None?))
    ensures !Matches(w, c, purpose)
  {}
}
