/** What the session manager's calls keep about the leaders they start: each is in the registry as
    long as it lives, and none is started beside a living one of the same name
    (src/sesman/mod.rs, lines 81-151 and 410-504). */
module SessionSpec {
  import opened Common
  import opened SesmanModel
  import opened ProcessLife
  import opened Launch

  /** A component leader that was started: under which name, which instance, when it was spawned,
      and when it was seen under the user's id. */
  datatype Spawn = Spawn(name: string, inst: Instance, at: nat, settled: nat)

  /** Where a crash during startup would leave things: the components started so far in this
      call, and those the registry file lists. */
  datatype Mark = Mark(started: seq<ComponentState>, listed: seq<ComponentState>)

  /** The registry lists everything started, except possibly the newest, in configured order. */
  predicate CutSafe(cfg: Config, m: Mark) {
    && |m.started| <= |cfg.components|
    && (forall k :: 0 <= k < |m.started| ==> m.started[k].name == cfg.components[k].name)
    && m.listed <= m.started && |m.started| <= |m.listed| + 1
  }

  /** The registry is of this configuration, if perhaps of another boot. */
  predicate Own(cfg: Config, st: SessionState) {
    st.header.bootId.Some? && st.header == HeaderFor(cfg, st.header.bootId.value)
  }

  /** The registry names this leader in a record that authenticates it. */
  ghost predicate Listed(cfg: Config, st: SessionState, s: Spawn) {
    st.header.bootId == Some(s.inst.boot) &&
    exists j :: 0 <= j < |st.components| && st.components[j].name == s.name && RecordOf(cfg, st.components[j], s.inst)
  }

  predicate Started(cfg: Config, tl: Timeline, s: Spawn) {
    s.at <= s.settled && Child(tl(s.at), s.inst) && Assumed(tl(s.settled), s.inst, cfg.uid)
  }

  /** No leader of the same name was alive when this one was started. */
  ghost predicate Succession(tl: Timeline, spawned: seq<Spawn>) {
    forall i, j :: 0 <= i < j < |spawned| && spawned[i].name == spawned[j].name ==>
      !Live(tl(spawned[j].at), spawned[i].inst)
  }

  ghost predicate NoneAlive(tl: Timeline, time: nat, spawned: seq<Spawn>) {
    forall i :: 0 <= i < |spawned| ==> !Live(tl(time), spawned[i].inst)
  }

  ghost predicate History(cfg: Config, tl: Timeline, time: nat, spawned: seq<Spawn>) {
    forall i :: 0 <= i < |spawned| ==> spawned[i].settled <= time && Started(cfg, tl, spawned[i])
  }

  /** The leader is dead or in the registry. */
  ghost predicate Held(cfg: Config, tl: Timeline, time: nat, registry: Option<SessionState>, s: Spawn) {
    Live(tl(time), s.inst) ==> registry.Some? && Listed(cfg, registry.value, s)
  }

  /** Every live leader is in the registry, so that without a registry there is none. */
  ghost predicate Covered(cfg: Config, tl: Timeline, time: nat, registry: Option<SessionState>, spawned: seq<Spawn>) {
    && (registry.Some? ==> Own(cfg, registry.value))
    && forall i :: 0 <= i < |spawned| ==> Held(cfg, tl, time, registry, spawned[i])
  }

  /** The j-th component may be signalled by a stop that began at `from`. */
  predicate Authorized(cfg: Config, tl: Timeline, from: nat, st: SessionState, j: nat)
    requires j < |st.components|
  {
    var c := st.components[j];
    && Belongs(cfg, tl(from), st) && Matches(tl(from + 1 + j), c, ForSignal)
    && (c.processGroup ==> c.pgid == Some(c.pid))
  }

  ghost predicate SeenStopped(tl: Timeline, from: nat, to: nat, c: ComponentState) {
    exists t :: from < t <= to && !TargetAlive(tl(t), c)
  }

  /** Some authorized target was seen alive in spite of it all. */
  ghost predicate Survivor(cfg: Config, tl: Timeline, from: nat, to: nat, st: SessionState) {
    exists j: nat, t: nat :: j < |st.components| && from < t <= to
      && Authorized(cfg, tl, from, st, j) && TargetAlive(tl(t), st.components[j])
  }

  /** Some target marked as authorized was seen alive. */
  ghost predicate SomeAlive(tl: Timeline, from: nat, to: nat, components: seq<ComponentState>, authorized: seq<bool>)
    requires |components| == |authorized|
  {
    exists j: nat, t: nat :: j < |components| && from < t <= to && authorized[j] && TargetAlive(tl(t), components[j])
  }

  lemma {:induction false} AliveIsSurvivor(cfg: Config, tl: Timeline, start: nat, from: nat, to: nat, later: nat,
                                           st: SessionState, authorized: seq<bool>)
    requires |authorized| == |st.components| && start <= from && to <= later
    requires forall j :: 0 <= j < |st.components| ==> (authorized[j] <==> Authorized(cfg, tl, start, st, j))
    requires SomeAlive(tl, from, to, st.components, authorized)
    ensures Survivor(cfg, tl, start, later, st)
  {
    var j: nat, t: nat :|
      j < |st.components| && from < t <= to && authorized[j] && TargetAlive(tl(t), st.components[j]);
    assert Authorized(cfg, tl, start, st, j);
  }

  /** Every target that a stop authorized, with its whole group, was seen dead afterwards. */
  ghost predicate Retired(cfg: Config, tl: Timeline, from: nat, to: nat, st: SessionState) {
    forall j :: 0 <= j < |st.components| && Authorized(cfg, tl, from, st, j) ==>
      SeenStopped(tl, from, to, st.components[j])
  }

  /** No leader that the state lists, and that was started before, is alive. */
  ghost predicate LeadersGone(cfg: Config, tl: Timeline, from: nat, now: nat, st: SessionState) {
    Own(cfg, st) ==> forall s: Spawn ::
      s.settled <= from && Started(cfg, tl, s) && Listed(cfg, st, s) ==> !Live(tl(now), s.inst)
  }

  /** Every signal added was authenticated since `from` and had its target checked before. */
  ghost predicate OnlyJustified(tl: Timeline, from: nat, before: seq<Sent>, after: seq<Sent>) {
    && before <= after
    && forall k :: |before| <= k < |after| ==>
         Justified(tl, after[k]) && from <= after[k].authorizedAt
  }

  /** The signals added are for these records, authorized at these instants. */
  ghost predicate SignalsFor(tl: Timeline, records: seq<ComponentState>, at: seq<nat>, before: seq<Sent>,
                             after: seq<Sent>)
  {
    && before <= after
    && forall k :: |before| <= k < |after| ==>
         && Justified(tl, after[k])
         && after[k].authorizedAt in at && after[k].record in records
  }

  lemma {:induction false} JustifiedSince(tl: Timeline, from: nat, records: seq<ComponentState>, at: seq<nat>,
                                          before: seq<Sent>, after: seq<Sent>)
    requires SignalsFor(tl, records, at, before, after) && forall j :: 0 <= j < |at| ==> from <= at[j]
    ensures OnlyJustified(tl, from, before, after)
    ensures forall k :: |before| <= k < |after| ==> after[k].record in records
  {}

  /** The signal could be sent, or its target was gone right after. */
  predicate Delivered(tl: Timeline, s: Sent) {
    !tl(s.at).fault || !TargetAlive(tl(s.at + 1), s.record)
  }

  /** So it was with every signal from the n-th on. */
  ghost predicate AllDelivered(tl: Timeline, n: nat, signals: seq<Sent>) {
    forall k :: n <= k < |signals| ==> Delivered(tl, signals[k])
  }

  lemma {:induction false} DeliveredInBoth(tl: Timeline, n: nat, first: seq<Sent>, all: seq<Sent>)
    requires n <= |first| && first <= all && AllDelivered(tl, n, first)
    ensures AllDelivered(tl, n, all) <==> AllDelivered(tl, |first|, all)
  {
    if AllDelivered(tl, |first|, all) {
      forall k | n <= k < |all| ensures Delivered(tl, all[k]) {
        assert k < |first| ==> all[k] == first[k];
      }
    }
  }

  /** One pass over the components, from the last to the first: the signals it sent, and for which of
      the components that it may signal; each was checked in this pass. */
  ghost predicate PassOf(records: seq<ComponentState>, allowed: seq<bool>, order: seq<nat>, kill: bool,
                         from: nat, to: nat, sent: seq<Sent>)
    requires |allowed| == |records|
  {
    && |sent| == |order|
    && (forall k :: 0 <= k < |order| ==>
          order[k] < |records| && allowed[order[k]] && sent[k].record == records[order[k]])
    && (forall k :: 0 <= k < |sent| ==> sent[k].kill == kill && from < sent[k].checkedAt && sent[k].at <= to)
    && (forall i, k :: 0 <= i < k < |order| ==> order[i] > order[k])
  }

  lemma {:induction false} PassGrows(records: seq<ComponentState>, allowed: seq<bool>, order: seq<nat>, kill: bool,
                                     from: nat, before: nat, to: nat, sent: seq<Sent>, j: nat, s: Sent)
    requires |allowed| == |records| && PassOf(records, allowed, order, kill, from, before, sent) && before <= to
    requires j < |records| && allowed[j] && s.record == records[j] && s.kill == kill && from < s.checkedAt && s.at <= to
    requires forall k :: 0 <= k < |order| ==> order[k] > j
    ensures PassOf(records, allowed, order + [j], kill, from, to, sent + [s])
  {
    var os, ss := order + [j], sent + [s];
    forall k | 0 <= k < |os| ensures os[k] < |records| && allowed[os[k]] && ss[k].record == records[os[k]] {
      if k < |order| {
        assert os[k] == order[k] && ss[k] == sent[k];
      }
    }
  }

  lemma {:induction false} PassLater(records: seq<ComponentState>, allowed: seq<bool>, order: seq<nat>, kill: bool,
                                     from: nat, to: nat, later: nat, sent: seq<Sent>)
    requires |allowed| == |records| && PassOf(records, allowed, order, kill, from, to, sent) && to <= later
    ensures PassOf(records, allowed, order, kill, from, later, sent)
  {}

  lemma {:induction false} StoppedLater(tl: Timeline, from: nat, to: nat, later: nat, c: ComponentState)
    requires to <= later && SeenStopped(tl, from, to, c)
    ensures SeenStopped(tl, from, later, c)
  {
    var t :| from < t <= to && !TargetAlive(tl(t), c);
  }

  lemma {:induction false} SeenSince(tl: Timeline, from: nat, mid: nat, to: nat, c: ComponentState)
    requires from <= mid && SeenStopped(tl, mid, to, c)
    ensures SeenStopped(tl, from, to, c)
  {
    var t :| mid < t <= to && !TargetAlive(tl(t), c);
  }

  lemma {:induction false} SeenLater(tl: Timeline, from: nat, to: nat, later: nat, records: seq<ComponentState>,
                                     allowed: seq<bool>, order: seq<nat>)
    requires |allowed| == |records| && to <= later
    requires forall j :: 0 <= j < |records| && allowed[j] ==> j in order || SeenStopped(tl, from, to, records[j])
    ensures forall j :: 0 <= j < |records| && allowed[j] ==> j in order || SeenStopped(tl, from, later, records[j])
  {
    forall j | 0 <= j < |records| && allowed[j] && j !in order ensures SeenStopped(tl, from, later, records[j]) {
      StoppedLater(tl, from, to, later, records[j]);
    }
  }

  /** A pass that has come down to component k: what it sent is in order and justified, and the
      targets behind k were signalled or seen dead. */
  ghost predicate PassState(tl: Timeline, records: seq<ComponentState>, allowed: seq<bool>, at: seq<nat>, k: nat,
                            order: seq<nat>, kill: bool, from: nat, to: nat, before: seq<Sent>, after: seq<Sent>)
  {
    && |allowed| == |at| == |records| && k <= |records| && from <= to && SignalsFor(tl, records, at, before, after)
    && PassOf(records, allowed, order, kill, from, to, after[|before|..])
    && (forall i :: 0 <= i < |order| ==> order[i] >= k)
    && (forall j :: k <= j < |records| && allowed[j] ==> j in order || SeenStopped(tl, from, to, records[j]))
  }

  lemma {:induction false} PassSkips(tl: Timeline, records: seq<ComponentState>, allowed: seq<bool>, at: seq<nat>,
                                     k: nat,
                                     order: seq<nat>, kill: bool, from: nat, to: nat, later: nat,
                                     before: seq<Sent>, after: seq<Sent>)
    requires PassState(tl, records, allowed, at, k + 1, order, kill, from, to, before, after) && to <= later
    requires allowed[k] ==> SeenStopped(tl, from, later, records[k])
    ensures PassState(tl, records, allowed, at, k, order, kill, from, later, before, after)
  {
    PassLater(records, allowed, order, kill, from, to, later, after[|before|..]);
    forall j | k <= j < |records| && allowed[j] && j !in order ensures SeenStopped(tl, from, later, records[j]) {
      if j > k {
        StoppedLater(tl, from, to, later, records[j]);
      }
    }
  }

  lemma {:induction false} PassSends(tl: Timeline, records: seq<ComponentState>, allowed: seq<bool>, at: seq<nat>,
                                     k: nat,
                                     order: seq<nat>, kill: bool, from: nat, to: nat, later: nat,
                                     before: seq<Sent>, after: seq<Sent>, s: Sent)
    requires PassState(tl, records, allowed, at, k + 1, order, kill, from, to, before, after) && to <= later
    requires allowed[k] && s.record == records[k] && s.authorizedAt == at[k] && s.kill == kill && Justified(tl, s)
    requires from < s.checkedAt && s.at <= later
    ensures PassState(tl, records, allowed, at, k, order + [k], kill, from, later, before, after + [s])
  {
    PassGrows(records, allowed, order, kill, from, to, later, after[|before|..], k, s);
    assert (after + [s])[|before|..] == after[|before|..] + [s];
    forall j | k <= j < |records| && allowed[j] && j !in order + [k] ensures SeenStopped(tl, from, later, records[j]) {
      assert j != k by {
        assert (order + [k])[|order|] == k;
      }
      StoppedLater(tl, from, to, later, records[j]);
    }
    forall x | |before| <= x < |after| + 1
      ensures (after + [s])[x].record in records && (after + [s])[x].authorizedAt in at
    {}
  }

  /** Every target that may be signalled was seen dead. */
  ghost predicate AllSeenStopped(tl: Timeline, from: nat, to: nat, records: seq<ComponentState>, allowed: seq<bool>)
    requires |allowed| == |records|
  {
    forall j :: 0 <= j < |records| && allowed[j] ==> SeenStopped(tl, from, to, records[j])
  }

  /** n looks in a row each saw a target alive. */
  ghost predicate WaitedOut(tl: Timeline, from: nat, to: nat, records: seq<ComponentState>, allowed: seq<bool>, n: nat)
    requires |allowed| == |records|
  {
    if n == 0 then from == to
    else exists mid :: from <= mid <= to && WaitedOut(tl, from, mid, records, allowed, n - 1)
           && SomeAlive(tl, mid, to, records, allowed)
  }

  /** The timeout was waited out, or every target was seen dead before. */
  ghost predicate Waited(tl: Timeline, from: nat, to: nat, records: seq<ComponentState>, allowed: seq<bool>)
    requires |allowed| == |records|
  {
    AllSeenStopped(tl, from, to, records, allowed) || WaitedOut(tl, from, to, records, allowed, tl(from).polls)
  }

  /** How a stop went: for which components it sent terminations and kills, when the terminations were
      out, and when the wait for them was over. */
  datatype StopTrace = StopTrace(terms: seq<nat>, kills: seq<nat>, termed: nat, waited: nat)

  /** First terminations, then a wait, then kills; a kill only for a component that was sent a
      termination, or that was seen dead then and is there again. */
  ghost predicate TermThenKill(tl: Timeline, records: seq<ComponentState>, allowed: seq<bool>, from: nat, to: nat,
                               sent: seq<Sent>, tr: StopTrace)
    requires |allowed| == |records|
  {
    && |sent| == |tr.terms| + |tr.kills| && from <= tr.termed <= tr.waited <= to
    && PassOf(records, allowed, tr.terms, false, from, tr.termed, sent[..|tr.terms|])
    && PassOf(records, allowed, tr.kills, true, tr.waited, to, sent[|tr.terms|..])
    && (tr.kills != [] ==> Waited(tl, tr.termed, tr.waited, records, allowed))
    && (forall k :: 0 <= k < |tr.kills| ==>
          tr.kills[k] in tr.terms || SeenStopped(tl, from, tr.termed, records[tr.kills[k]]))
  }

  /** So every kill comes after the wait, and after a termination for the same record, unless its
      target was seen dead before the wait. */
  lemma {:induction false} TermBeforeKill(tl: Timeline, records: seq<ComponentState>, allowed: seq<bool>, from: nat,
                                          to: nat, sent: seq<Sent>, tr: StopTrace, k: nat) returns (i: nat)
    requires |allowed| == |records| && TermThenKill(tl, records, allowed, from, to, sent, tr)
    requires k < |sent| && sent[k].kill
    ensures tr.waited < sent[k].checkedAt && Waited(tl, tr.termed, tr.waited, records, allowed)
    ensures (i < k && !sent[i].kill && sent[i].record == sent[k].record && sent[i].at <= tr.termed)
      || SeenStopped(tl, from, tr.termed, sent[k].record)
  {
    var n := |tr.terms|;
    var terms, kills := sent[..n], sent[n..];
    forall x | 0 <= x < n ensures sent[x] == terms[x] && !sent[x].kill {}
    assert kills[k - n] == sent[k];
    i := 0;
    if tr.kills[k - n] in tr.terms {
      i :| 0 <= i < n && tr.terms[i] == tr.kills[k - n];
      assert terms[i] == sent[i];
    }
  }

  /** For a group that was never empty until then, the termination always comes first. */
  lemma {:induction false} TermBeforeKillOfGroup(tl: Timeline, records: seq<ComponentState>, allowed: seq<bool>,
                                                 from: nat,
                                                 to: nat, sent: seq<Sent>, tr: StopTrace, k: nat) returns (i: nat)
    requires |allowed| == |records| && TermThenKill(tl, records, allowed, from, to, sent, tr)
    requires k < |sent| && sent[k].kill && sent[k].record.processGroup
    requires NeverEmptied(tl, sent[k].record.pid, from, tr.termed)
    ensures i < k && !sent[i].kill && sent[i].record == sent[k].record && sent[i].at <= tr.termed < sent[k].checkedAt
  {
    i := TermBeforeKill(tl, records, allowed, from, to, sent, tr, k);
  }

  lemma {:induction false} TraceOfTerms(tl: Timeline, records: seq<ComponentState>, allowed: seq<bool>, from: nat,
                                        to: nat, sent: seq<Sent>, terms: seq<nat>)
    requires |allowed| == |records| && from <= to && PassOf(records, allowed, terms, false, from, to, sent)
    ensures TermThenKill(tl, records, allowed, from, to, sent, StopTrace(terms, [], to, to))
  {
    assert sent[..|terms|] == sent && sent[|terms|..] == [];
  }

  lemma {:induction false} TraceOfBoth(tl: Timeline, records: seq<ComponentState>, allowed: seq<bool>, from: nat,
                                       to: nat,
                                       first: seq<Sent>, second: seq<Sent>, tr: StopTrace)
    requires |allowed| == |records| && from <= tr.termed <= tr.waited <= to
    requires PassOf(records, allowed, tr.terms, false, from, tr.termed, first)
    requires PassOf(records, allowed, tr.kills, true, tr.waited, to, second)
    requires Waited(tl, tr.termed, tr.waited, records, allowed)
    requires forall j :: 0 <= j < |records| && allowed[j] ==>
      j in tr.terms || SeenStopped(tl, from, tr.termed, records[j])
    ensures TermThenKill(tl, records, allowed, from, to, first + second, tr)
  {
    assert (first + second)[..|tr.terms|] == first && (first + second)[|tr.terms|..] == second;
  }

  lemma {:induction false} TraceLater(tl: Timeline, records: seq<ComponentState>, allowed: seq<bool>, from: nat,
                                      to: nat,
                                      later: nat, sent: seq<Sent>, tr: StopTrace)
    requires |allowed| == |records| && to <= later && TermThenKill(tl, records, allowed, from, to, sent, tr)
    ensures TermThenKill(tl, records, allowed, from, later, sent, tr)
  {}

  /** A stop that began at `from` signalled only what it was allowed to, in order. */
  ghost predicate StopsInOrder(cfg: Config, tl: Timeline, from: nat, to: nat, st: SessionState, sent: seq<Sent>,
                               tr: StopTrace)
  {
    exists allowed: seq<bool> ::
      && |allowed| == |st.components|
      && (forall j :: 0 <= j < |allowed| ==> (allowed[j] <==> Authorized(cfg, tl, from, st, j)))
      && TermThenKill(tl, st.components, allowed, from + |st.components|, to, sent, tr)
  }

  lemma {:induction false} OrderedSince(cfg: Config, tl: Timeline, start: nat, began: nat, to: nat, later: nat,
                                        st: SessionState, allowed: seq<bool>, sent: seq<Sent>, tr: StopTrace)
    requires |allowed| == |st.components| && began == start + |st.components| && to <= later
    requires forall j :: 0 <= j < |st.components| ==> (allowed[j] <==> Authorized(cfg, tl, start, st, j))
    requires TermThenKill(tl, st.components, allowed, began, to, sent, tr)
    ensures StopsInOrder(cfg, tl, start, later, st, sent, tr)
  {
    TraceLater(tl, st.components, allowed, began, to, later, sent, tr);
  }

  lemma {:induction false} InOrderLater(cfg: Config, tl: Timeline, from: nat, to: nat, later: nat, st: SessionState,
                                        sent: seq<Sent>, tr: StopTrace)
    requires to <= later && StopsInOrder(cfg, tl, from, to, st, sent, tr)
    ensures StopsInOrder(cfg, tl, from, later, st, sent, tr)
  {
    var allowed :| && |allowed| == |st.components|
      && (forall j :: 0 <= j < |allowed| ==> (allowed[j] <==> Authorized(cfg, tl, from, st, j)))
      && TermThenKill(tl, st.components, allowed, from + |st.components|, to, sent, tr);
    TraceLater(tl, st.components, allowed, from + |st.components|, to, later, sent, tr);
  }

  /** Nothing is signalled for a registry of another configuration or boot. */
  lemma {:induction false} SignalsOnlyOwn(cfg: Config, tl: Timeline, from: nat, to: nat, st: SessionState,
                                          sent: seq<Sent>, tr: StopTrace)
    requires StopsInOrder(cfg, tl, from, to, st, sent, tr) && sent != []
    ensures var h := st.header;
      && h.version == 2 && h.name == cfg.name && h.user == cfg.user && h.runtimeDir == cfg.runtimeDir
      && h.bootId == Some(tl(from).boot) && h.uid == Some(cfg.uid) && h.gid == Some(cfg.gid)
  {
    var allowed :| && |allowed| == |st.components|
      && (forall j :: 0 <= j < |allowed| ==> (allowed[j] <==> Authorized(cfg, tl, from, st, j)))
      && TermThenKill(tl, st.components, allowed, from + |st.components|, to, sent, tr);
    var j := if tr.terms != [] then tr.terms[0] else tr.kills[0];
    assert allowed[j] && Authorized(cfg, tl, from, st, j);
  }

  /** A group that was retired had no process left in it at some instant, not even a zombie. */
  lemma {:induction false} RetiredIsEmpty(cfg: Config, tl: Timeline, from: nat, to: nat, st: SessionState, j: nat)
      returns (t: nat)
    requires Retired(cfg, tl, from, to, st) && j < |st.components| && st.components[j].processGroup
    requires Authorized(cfg, tl, from, st, j)
    ensures from < t <= to && forall p :: p in tl(t).table ==> tl(t).table[p].pgid != st.components[j].pid
  {
    assert SeenStopped(tl, from, to, st.components[j]);
    t :| from < t <= to && !TargetAlive(tl(t), st.components[j]);
  }

  ghost predicate AllJustified(tl: Timeline, signals: seq<Sent>) {
    forall k :: 0 <= k < |signals| ==> Justified(tl, signals[k])
  }

  /** The record has every identity field, and the signal reaches its instance or group. */
  ghost predicate WellAimed(tl: Timeline, s: Sent) {
    FullyHardened(s.record) && ReachesInstance(tl, s) && ReachesGroup(tl, s)
  }

  /** Over a whole run of signals, each reaches what it was meant for. */
  lemma {:induction false} SignalsReach(tl: Timeline, signals: seq<Sent>)
    requires AllJustified(tl, signals)
    ensures forall k :: 0 <= k < |signals| ==> WellAimed(tl, signals[k])
  {
    forall k | 0 <= k < |signals| ensures WellAimed(tl, signals[k]) {
      SinglePidSignal(tl, signals[k]);
      GroupSignal(tl, signals[k]);
    }
  }

  ghost predicate AllGrouped(components: seq<ComponentState>) {
    forall j :: 0 <= j < |components| ==> components[j].processGroup
  }

  ghost predicate GroupSignals(signals: seq<Sent>) {
    forall k :: 0 <= k < |signals| ==> signals[k].record.processGroup
  }

  lemma {:induction false} SignalsKept(tl: Timeline, from: nat, records: seq<ComponentState>, before: seq<Sent>,
                                       after: seq<Sent>)
    requires OnlyJustified(tl, from, before, after)
    requires forall k :: |before| <= k < |after| ==> after[k].record in records
    ensures AllJustified(tl, before) ==> AllJustified(tl, after)
    ensures GroupSignals(before) && AllGrouped(records) ==> GroupSignals(after)
  {
    forall k | 0 <= k < |before| ensures after[k] == before[k] {}
  }

  /** No reboot in between. */
  ghost predicate SameBoot(tl: Timeline, from: nat, to: nat) {
    forall t :: from <= t <= to ==> tl(t).boot == tl(from).boot
  }

  /** Each component has at most one live leader. */
  ghost predicate Exclusive(tl: Timeline, time: nat, spawned: seq<Spawn>) {
    forall i, j :: 0 <= i < j < |spawned| && spawned[i].name == spawned[j].name ==>
      !(Live(tl(time), spawned[i].inst) && Live(tl(time), spawned[j].inst))
  }

  lemma {:induction false} SuccessionIsExclusive(tl: Timeline, cfg: Config, time: nat, spawned: seq<Spawn>)
    requires Lawful(tl, cfg) && History(cfg, tl, time, spawned) && Succession(tl, spawned)
    requires Ordered(spawned)
    ensures Exclusive(tl, time, spawned)
  {
    forall i, j | 0 <= i < j < |spawned| && spawned[i].name == spawned[j].name
      ensures !(Live(tl(time), spawned[i].inst) && Live(tl(time), spawned[j].inst))
    {
      assert Started(cfg, tl, spawned[i]);
      DeadStaysDead(tl, cfg, spawned[i].inst, spawned[i].at, spawned[j].at, time);
    }
  }

  lemma {:induction false} CoveredLater(cfg: Config, tl: Timeline, a: nat, b: nat, registry: Option<SessionState>,
                                        spawned: seq<Spawn>)
    requires Lawful(tl, cfg) && a <= b && History(cfg, tl, a, spawned) && Covered(cfg, tl, a, registry, spawned)
    ensures Covered(cfg, tl, b, registry, spawned)
  {
    forall i | 0 <= i < |spawned| && Live(tl(b), spawned[i].inst) ensures Live(tl(a), spawned[i].inst) {
      LivedThrough(tl, cfg, spawned[i], a, b);
    }
  }

  /** A leader on record is dead once its target has been seen stopped: had it lived, it would
      have been authorized, and its group would have been seen alive. */
  lemma {:induction false} LeaderGone(cfg: Config, tl: Timeline, st: SessionState, s: Spawn, j: nat, start: nat,
                                      seen: nat, quiet: nat)
    requires Lawful(tl, cfg) && Own(cfg, st) && s.settled <= start && Started(cfg, tl, s)
    requires st.header.bootId == Some(s.inst.boot) && j < |st.components| && RecordOf(cfg, st.components[j], s.inst)
    requires start + 1 + j <= quiet && start <= seen <= quiet
    requires Authorized(cfg, tl, start, st, j) ==> !TargetAlive(tl(seen), st.components[j])
    ensures !Live(tl(quiet), s.inst)
  {
    if Live(tl(quiet), s.inst) {
      LivedThrough(tl, cfg, s, start, quiet);
      LivedThrough(tl, cfg, s, start + 1 + j, quiet);
      LivedThrough(tl, cfg, s, seen, quiet);
      AuthenticExactly(tl, cfg, st.components[j], s.inst, s.at, s.settled, start + 1 + j);
      AuthenticExactly(tl, cfg, st.components[j], s.inst, s.at, s.settled, seen);
      assert false;
    }
  }

  lemma {:induction false} LivedThrough(tl: Timeline, cfg: Config, s: Spawn, a: nat, b: nat)
    requires Lawful(tl, cfg) && Started(cfg, tl, s) && s.at <= a <= b && Live(tl(b), s.inst)
    ensures Live(tl(a), s.inst)
  {
    assert Behaves(tl, cfg, s.inst);
  }

  lemma {:induction false} AllGone(cfg: Config, tl: Timeline, st: SessionState, start: nat,
                                   authorized: seq<bool>, seen: seq<nat>, quiet: nat)
    requires Lawful(tl, cfg)
    requires |authorized| == |seen| == |st.components| && start + |st.components| <= quiet
    requires forall j :: 0 <= j < |st.components| ==>
      && start < seen[j] <= quiet && (authorized[j] <==> Authorized(cfg, tl, start, st, j))
      && (authorized[j] ==> !TargetAlive(tl(seen[j]), st.components[j]))
    ensures Retired(cfg, tl, start, quiet, st) && LeadersGone(cfg, tl, start, quiet, st)
  {
    if Own(cfg, st) {
      forall s: Spawn | s.settled <= start && Started(cfg, tl, s) && Listed(cfg, st, s)
        ensures !Live(tl(quiet), s.inst)
      {
        var j :| 0 <= j < |st.components| && st.components[j].name == s.name && RecordOf(cfg, st.components[j], s.inst);
        LeaderGone(cfg, tl, st, s, j, start, seen[j], quiet);
      }
    }
  }

  lemma {:induction false} RetiredLater(cfg: Config, tl: Timeline, start: nat, a: nat, b: nat, st: SessionState)
    requires a <= b && Retired(cfg, tl, start, a, st)
    ensures Retired(cfg, tl, start, b, st)
  {
    forall j | 0 <= j < |st.components| && Authorized(cfg, tl, start, st, j)
      ensures SeenStopped(tl, start, b, st.components[j])
    {
      var t :| start < t <= a && !TargetAlive(tl(t), st.components[j]);
    }
  }

  lemma {:induction false} GoneForGood(cfg: Config, tl: Timeline, start: nat, a: nat, b: nat, st: SessionState)
    requires Lawful(tl, cfg) && start <= a <= b
    requires Retired(cfg, tl, start, a, st) && LeadersGone(cfg, tl, start, a, st)
    ensures Retired(cfg, tl, start, b, st) && LeadersGone(cfg, tl, start, b, st)
  {
    RetiredLater(cfg, tl, start, a, b, st);
    if Own(cfg, st) {
      forall s: Spawn | s.settled <= start && Started(cfg, tl, s) && Listed(cfg, st, s) ensures !Live(tl(b), s.inst) {
        DeadStaysDead(tl, cfg, s.inst, s.at, a, b);
      }
    }
  }

  lemma {:induction false} NoneAliveLater(cfg: Config, tl: Timeline, a: nat, b: nat, spawned: seq<Spawn>)
    requires Lawful(tl, cfg) && a <= b && History(cfg, tl, a, spawned) && NoneAlive(tl, a, spawned)
    ensures NoneAlive(tl, b, spawned)
  {
    forall i | 0 <= i < |spawned| ensures !Live(tl(b), spawned[i].inst) {
      assert Started(cfg, tl, spawned[i]);
      DeadStaysDead(tl, cfg, spawned[i].inst, spawned[i].at, a, b);
    }
  }

  /** What holds of the leaders and the registry whenever no call is under way. */
  ghost predicate Leaders(cfg: Config, tl: Timeline, time: nat, registry: Option<SessionState>, spawned: seq<Spawn>) {
    && History(cfg, tl, time, spawned) && Succession(tl, spawned) && Ordered(spawned)
    && Covered(cfg, tl, time, registry, spawned)
  }

  // ---- Starting ---------------------------------------------------------------------------------------

  /** The leaders started in one call, the first components in configured order, and the records
      made of them. */
  ghost predicate Batch(cfg: Config, tl: Timeline, start: nat, time: nat, records: seq<ComponentState>,
                        batch: seq<Spawn>)
  {
    && |records| == |batch| <= |cfg.components|
    && (forall i :: 0 <= i < |batch| ==> Enrolled(cfg, tl, start, time, records, batch, i))
    && Ordered(batch)
  }

  predicate Enrolled(cfg: Config, tl: Timeline, start: nat, time: nat, records: seq<ComponentState>, batch: seq<Spawn>,
                     i: nat)
    requires i < |batch| == |records| <= |cfg.components|
  {
    && batch[i].name == records[i].name == cfg.components[i].name
    && start <= batch[i].at && batch[i].settled <= time
    && Started(cfg, tl, batch[i]) && RecordOf(cfg, records[i], batch[i].inst)
  }

  ghost predicate StartedSince(from: nat, batch: seq<Spawn>) {
    forall i :: 0 <= i < |batch| ==> from <= batch[i].at
  }

  ghost predicate SettledBy(to: nat, batch: seq<Spawn>) {
    forall i :: 0 <= i < |batch| ==> batch[i].settled <= to
  }

  ghost predicate Ordered(spawned: seq<Spawn>) {
    forall i, j :: 0 <= i < j < |spawned| ==> spawned[i].at <= spawned[j].at
  }

  /** A new leader was started and recorded. */
  lemma {:induction false} BatchGrows(cfg: Config, tl: Timeline, start: nat, before: nat, time: nat,
                                      records: seq<ComponentState>, batch: seq<Spawn>, c: ComponentState, s: Spawn)
    requires Batch(cfg, tl, start, before, records, batch) && |batch| < |cfg.components| && start <= before <= time
    requires s.name == c.name == cfg.components[|batch|].name && before <= s.at && s.settled <= time
    requires Started(cfg, tl, s) && RecordOf(cfg, c, s.inst)
    ensures Batch(cfg, tl, start, time, records + [c], batch + [s])
  {
    var rs, all := records + [c], batch + [s];
    forall i | 0 <= i < |all| ensures Enrolled(cfg, tl, start, time, rs, all, i) && all[i].at <= s.at {
      if i < |batch| {
        assert Enrolled(cfg, tl, start, before, records, batch, i);
        assert all[i] == batch[i] && rs[i] == records[i];
      }
    }
  }

  lemma {:induction false} BatchDistinct(cfg: Config, tl: Timeline, start: nat, time: nat,
                                         records: seq<ComponentState>, batch: seq<Spawn>)
    requires Validated(cfg) && Batch(cfg, tl, start, time, records, batch)
    ensures forall i, j :: 0 <= i < j < |batch| ==> batch[i].name != batch[j].name
  {
    forall i, j | 0 <= i < j < |batch| ensures batch[i].name != batch[j].name {
      assert Enrolled(cfg, tl, start, time, records, batch, i) && Enrolled(cfg, tl, start, time, records, batch, j);
      assert cfg.components[i].name != cfg.components[j].name;
    }
  }

  lemma {:induction false} SuccessionAppends(tl: Timeline, earlier: seq<Spawn>, batch: seq<Spawn>)
    requires Succession(tl, earlier)
    requires forall i, j :: 0 <= i < j < |batch| ==> batch[i].name != batch[j].name
    requires forall i, j :: 0 <= i < |earlier| && 0 <= j < |batch| ==> !Live(tl(batch[j].at), earlier[i].inst)
    ensures Succession(tl, earlier + batch)
  {}

  /** Started while no earlier leader lived, a batch succeeds them. */
  lemma {:induction false} BatchSucceeds(cfg: Config, tl: Timeline, start: nat, time: nat,
                                         earlier: seq<Spawn>, records: seq<ComponentState>, batch: seq<Spawn>)
    requires Lawful(tl, cfg) && Validated(cfg) && start <= time
    requires History(cfg, tl, start, earlier) && Succession(tl, earlier) && Ordered(earlier)
    requires NoneAlive(tl, start, earlier)
    requires Batch(cfg, tl, start, time, records, batch)
    ensures History(cfg, tl, time, earlier + batch) && Succession(tl, earlier + batch) && Ordered(earlier + batch)
  {
    BatchDistinct(cfg, tl, start, time, records, batch);
    forall j | 0 <= j < |batch| ensures start <= batch[j].at && batch[j].settled <= time && Started(cfg, tl, batch[j]) {
      assert Enrolled(cfg, tl, start, time, records, batch, j);
    }
    forall i, j | 0 <= i < |earlier| && 0 <= j < |batch| ensures !Live(tl(batch[j].at), earlier[i].inst) {
      assert Started(cfg, tl, earlier[i]);
      DeadStaysDead(tl, cfg, earlier[i].inst, earlier[i].at, start, batch[j].at);
    }
    SuccessionAppends(tl, earlier, batch);
  }

  function Components(registry: Option<SessionState>): seq<ComponentState> {
    if registry.None? then [] else registry.value.components
  }

  /** At most the components differ. */
  predicate SameSession(a: SessionState, b: SessionState) { a.header == b.header && a.presence == b.presence }

  /** The registry is this state, or a prefix of it. */
  predicate WrittenUpTo(registry: Option<SessionState>, st: SessionState, listed: nat) {
    && listed <= |st.components|
    && registry == if listed == 0 then None else Some(st.(components := st.components[..listed]))
  }

  lemma {:induction false} WrittenGrows(registry: Option<SessionState>, st: SessionState, c: ComponentState)
    requires WrittenUpTo(registry, st, |st.components|)
    ensures var more := st.(components := st.components + [c]);
      WrittenUpTo(registry, more, |st.components|) && WrittenUpTo(Some(more), more, |st.components| + 1)
  {
    var all := st.components + [c];
    assert all[..|st.components|] == st.components == st.components[..|st.components|] && all[..|all|] == all;
  }

  /** A batch whose records were all written is covered. If the last was not, the leaders are
      covered exactly if that last leader is dead. */
  lemma {:induction false} BatchCovered(cfg: Config, tl: Timeline, start: nat, time: nat, earlier: seq<Spawn>,
                                        st: SessionState, batch: seq<Spawn>, registry: Option<SessionState>,
                                        listed: nat)
    requires Lawful(tl, cfg) && Validated(cfg) && start <= time && SameBoot(tl, start, time)
    requires History(cfg, tl, start, earlier) && NoneAlive(tl, start, earlier)
    requires Batch(cfg, tl, start, time, st.components, batch)
    requires Own(cfg, st) && st.header.bootId == Some(tl(start).boot) && WrittenUpTo(registry, st, listed)
    ensures listed == |batch| ==> Covered(cfg, tl, time, registry, earlier + batch)
    ensures listed + 1 == |batch| ==>
      (Covered(cfg, tl, time, registry, earlier + batch) <==> !Live(tl(time), batch[listed].inst))
  {
    NoneAliveLater(cfg, tl, start, time, earlier);
    forall i | 0 <= i < listed ensures Held(cfg, tl, time, registry, batch[i]) {
      BatchListed(cfg, tl, start, time, st, batch, listed, i);
    }
    if listed + 1 == |batch| {
      NewestUnlisted(cfg, tl, start, time, st, batch, listed);
      assert Held(cfg, tl, time, registry, batch[listed]) <==> !Live(tl(time), batch[listed].inst);
    }
    CoveredAppend(cfg, tl, time, registry, earlier, batch);
  }

  lemma {:induction false} CoveredAppend(cfg: Config, tl: Timeline, time: nat, registry: Option<SessionState>,
                                         a: seq<Spawn>, b: seq<Spawn>)
    ensures Covered(cfg, tl, time, registry, a + b) <==>
      Covered(cfg, tl, time, registry, a) && Covered(cfg, tl, time, registry, b)
  {
    var all := a + b;
    assert forall i :: 0 <= i < |a| ==> all[i] == a[i];
    assert forall i :: 0 <= i < |b| ==> all[|a| + i] == b[i];
  }

  lemma {:induction false} BatchListed(cfg: Config, tl: Timeline, start: nat, time: nat, st: SessionState,
                                       batch: seq<Spawn>, listed: nat, i: nat)
    requires SameBoot(tl, start, time) && Batch(cfg, tl, start, time, st.components, batch)
    requires st.header.bootId == Some(tl(start).boot) && i < listed <= |batch|
    ensures Listed(cfg, st.(components := st.components[..listed]), batch[i])
  {
    assert Enrolled(cfg, tl, start, time, st.components, batch, i);
    var written := st.components[..listed];
    assert written[i] == st.components[i];
  }

  lemma {:induction false} NewestUnlisted(cfg: Config, tl: Timeline, start: nat, time: nat, st: SessionState,
                                          batch: seq<Spawn>, listed: nat)
    requires Validated(cfg) && Batch(cfg, tl, start, time, st.components, batch) && listed + 1 == |batch|
    ensures !Listed(cfg, st.(components := st.components[..listed]), batch[listed])
  {
    var written := st.components[..listed];
    forall j | 0 <= j < listed ensures written[j].name != batch[listed].name {
      assert Enrolled(cfg, tl, start, time, st.components, batch, j);
      assert Enrolled(cfg, tl, start, time, st.components, batch, listed);
      assert cfg.components[j].name != cfg.components[listed].name;
    }
  }

  lemma {:induction false} MemberGone(cfg: Config, tl: Timeline, start: nat, mid: nat, time: nat,
                                      st: SessionState, batch: seq<Spawn>, i: nat)
    requires SameBoot(tl, start, mid) && Batch(cfg, tl, start, mid, st.components, batch) && i < |batch|
    requires Own(cfg, st) && st.header.bootId == Some(tl(start).boot) && LeadersGone(cfg, tl, mid, time, st)
    ensures !Live(tl(time), batch[i].inst)
  {
    BatchListed(cfg, tl, start, mid, st, batch, |batch|, i);
    assert st.components[..|batch|] == st.components;
    assert Enrolled(cfg, tl, start, mid, st.components, batch, i) && Listed(cfg, st, batch[i]);
  }

  /** Everything in the state is gone: no leader at all is left. */
  lemma {:induction false} BatchGone(cfg: Config, tl: Timeline, start: nat, mid: nat, time: nat, earlier: seq<Spawn>,
                                     st: SessionState, batch: seq<Spawn>)
    requires Lawful(tl, cfg) && start <= mid <= time && SameBoot(tl, start, mid)
    requires History(cfg, tl, start, earlier) && NoneAlive(tl, start, earlier)
    requires Batch(cfg, tl, start, mid, st.components, batch)
    requires Own(cfg, st) && st.header.bootId == Some(tl(start).boot) && LeadersGone(cfg, tl, mid, time, st)
    ensures NoneAlive(tl, time, earlier + batch)
  {
    NoneAliveLater(cfg, tl, start, time, earlier);
    forall i | 0 <= i < |batch| ensures !Live(tl(time), batch[i].inst) {
      MemberGone(cfg, tl, start, mid, time, st, batch, i);
    }
  }

  /** Client bookkeeping does not change what is covered. */
  lemma {:induction false} CoveredSame(cfg: Config, tl: Timeline, time: nat, a: SessionState, b: SessionState,
                                       spawned: seq<Spawn>)
    requires a.header == b.header && a.components == b.components && Covered(cfg, tl, time, Some(a), spawned)
    ensures Covered(cfg, tl, time, Some(b), spawned)
  {
    forall i | 0 <= i < |spawned| && Live(tl(time), spawned[i].inst) ensures Listed(cfg, b, spawned[i]) {
      assert Listed(cfg, a, spawned[i]);
    }
  }

  /** Stopping everything that the registry lists leaves no leader. */
  lemma {:induction false} StoppedAll(cfg: Config, tl: Timeline, start: nat, time: nat, st: SessionState,
                                      spawned: seq<Spawn>)
    requires Lawful(tl, cfg) && start <= time && History(cfg, tl, start, spawned)
    requires Covered(cfg, tl, start, Some(st), spawned) && LeadersGone(cfg, tl, start, time, st)
    ensures NoneAlive(tl, time, spawned)
  {
    forall i | 0 <= i < |spawned| ensures !Live(tl(time), spawned[i].inst) {
      assert Started(cfg, tl, spawned[i]);
      if Live(tl(time), spawned[i].inst) {
        LivedThrough(tl, cfg, spawned[i], start, time);
        assert false;
      }
    }
  }

  lemma {:induction false} BatchGrouped(cfg: Config, tl: Timeline, start: nat, time: nat, st: SessionState,
                                        batch: seq<Spawn>, registry: Option<SessionState>, listed: nat)
    requires Batch(cfg, tl, start, time, st.components, batch) && WrittenUpTo(registry, st, listed)
    ensures AllGrouped(st.components) && AllGrouped(Components(registry))
  {
    forall j | 0 <= j < |st.components| ensures st.components[j].processGroup {
      assert Enrolled(cfg, tl, start, time, st.components, batch, j);
    }
  }

  /** Where startup can be cut, the registry lists what was started, except possibly the newest. */
  lemma {:induction false} BatchCutSafe(cfg: Config, tl: Timeline, start: nat, time: nat, st: SessionState,
                                        batch: seq<Spawn>, registry: Option<SessionState>, listed: nat)
    requires Batch(cfg, tl, start, time, st.components, batch) && WrittenUpTo(registry, st, listed)
    requires |batch| <= listed + 1
    ensures CutSafe(cfg, Mark(st.components, Components(registry)))
  {
    forall k | 0 <= k < |st.components| ensures st.components[k].name == cfg.components[k].name {
      assert Enrolled(cfg, tl, start, time, st.components, batch, k);
    }
    assert st.components[..listed] <= st.components;
  }

  ghost predicate AllCutSafe(cfg: Config, marks: seq<Mark>) {
    forall k :: 0 <= k < |marks| ==> CutSafe(cfg, marks[k])
  }

  /** The recorded component was authenticated and ready at some instant. */
  predicate ReadyAt(w: World, configured: ComponentConfig, st: SessionState) {
    var recorded := Find(st.components, configured.name);
    recorded.Some? && Matches(w, recorded.value, ForStatus) && Accepts(w, configured.readiness)
  }

  ghost predicate BecameReady(tl: Timeline, from: nat, to: nat, configured: ComponentConfig, st: SessionState) {
    configured.required ==> exists t :: from < t <= to && ReadyAt(tl(t), configured, st)
  }

  ghost predicate AllReady(cfg: Config, tl: Timeline, from: nat, to: nat, st: SessionState, n: nat) {
    n <= |cfg.components| && forall i :: 0 <= i < n ==> BecameReady(tl, from, to, cfg.components[i], st)
  }

  lemma {:induction false} FindKept(components: seq<ComponentState>, c: ComponentState, name: string)
    requires Find(components, name).Some?
    ensures Find(components + [c], name) == Find(components, name)
  {
    if components[0].name != name {
      assert (components + [c])[1..] == components[1..] + [c];
      FindKept(components[1..], c, name);
    }
  }

  lemma {:induction false} ReadyKept(cfg: Config, tl: Timeline, from: nat, to: nat, later: nat,
                                     st: SessionState, c: ComponentState, n: nat)
    requires to <= later && AllReady(cfg, tl, from, to, st, n)
    ensures AllReady(cfg, tl, from, later, st.(components := st.components + [c]), n)
  {
    var more := st.(components := st.components + [c]);
    forall i | 0 <= i < n && cfg.components[i].required ensures BecameReady(tl, from, later, cfg.components[i], more) {
      assert BecameReady(tl, from, to, cfg.components[i], st);
      var t :| from < t <= to && ReadyAt(tl(t), cfg.components[i], st);
      FindKept(st.components, c, cfg.components[i].name);
      assert ReadyAt(tl(t), cfg.components[i], more);
    }
  }

  lemma {:induction false} ReadyLater(cfg: Config, tl: Timeline, from: nat, mid: nat, to: nat, later: nat,
                                      st: SessionState, n: nat)
    requires n < |cfg.components| && from <= mid && to <= later
    requires AllReady(cfg, tl, from, to, st, n) && BecameReady(tl, mid, later, cfg.components[n], st)
    ensures AllReady(cfg, tl, from, later, st, n + 1)
  {
    forall i | 0 <= i < n + 1 && cfg.components[i].required
      ensures BecameReady(tl, from, later, cfg.components[i], st)
    {
      assert i < n ==> BecameReady(tl, from, to, cfg.components[i], st);
      if i < n {
        var t :| from < t <= to && ReadyAt(tl(t), cfg.components[i], st);
      } else {
        var t :| mid < t <= later && ReadyAt(tl(t), cfg.components[i], st);
      }
    }
  }

  /** What a startup amounts to: everything written is covered; a newest leader that could not be
      written is covered exactly if it is dead. */
  lemma {:induction false} StartupCovered(cfg: Config, tl: Timeline, start: nat, mid: nat, time: nat,
                                          earlier: seq<Spawn>, st: SessionState, batch: seq<Spawn>,
                                          registry: Option<SessionState>, listed: nat)
    requires Lawful(tl, cfg) && Validated(cfg) && start <= mid <= time && SameBoot(tl, start, time)
    requires Leaders(cfg, tl, start, None, earlier)
    requires Batch(cfg, tl, start, mid, st.components, batch)
    requires Own(cfg, st) && st.header.bootId == Some(tl(start).boot) && WrittenUpTo(registry, st, listed)
    ensures listed == |batch| ==> Leaders(cfg, tl, time, registry, earlier + batch)
    ensures listed + 1 == |batch| ==>
      (Leaders(cfg, tl, time, registry, earlier + batch) <==> !Live(tl(time), batch[listed].inst))
  {
    NoneListed(cfg, tl, start, earlier);
    BatchLater(cfg, tl, start, mid, time, st.components, batch);
    BatchSucceeds(cfg, tl, start, time, earlier, st.components, batch);
    BatchCovered(cfg, tl, start, time, earlier, st, batch, registry, listed);
  }

  /** Without a registry no leader is alive. */
  lemma {:induction false} NoneListed(cfg: Config, tl: Timeline, time: nat, spawned: seq<Spawn>)
    ensures Covered(cfg, tl, time, None, spawned) <==> NoneAlive(tl, time, spawned)
  {
    if Covered(cfg, tl, time, None, spawned) {
      forall i | 0 <= i < |spawned| ensures !Live(tl(time), spawned[i].inst) {
        assert Held(cfg, tl, time, None, spawned[i]);
      }
    }
  }

  lemma {:induction false} BatchLater(cfg: Config, tl: Timeline, start: nat, mid: nat, time: nat,
                                      records: seq<ComponentState>, batch: seq<Spawn>)
    requires mid <= time && Batch(cfg, tl, start, mid, records, batch)
    ensures Batch(cfg, tl, start, time, records, batch)
  {
    forall i | 0 <= i < |batch| ensures Enrolled(cfg, tl, start, time, records, batch, i) {
      assert Enrolled(cfg, tl, start, mid, records, batch, i);
    }
  }

  /** A failed startup that was cleaned up leaves no leader. */
  lemma {:induction false} StartupUndone(cfg: Config, tl: Timeline, start: nat, mid: nat, time: nat,
                                         earlier: seq<Spawn>, st: SessionState, batch: seq<Spawn>)
    requires Lawful(tl, cfg) && Validated(cfg) && start <= mid <= time && SameBoot(tl, start, time)
    requires Leaders(cfg, tl, start, None, earlier)
    requires Batch(cfg, tl, start, mid, st.components, batch)
    requires Own(cfg, st) && st.header.bootId == Some(tl(start).boot) && LeadersGone(cfg, tl, mid, time, st)
    ensures Leaders(cfg, tl, time, None, earlier + batch)
  {
    NoneListed(cfg, tl, start, earlier);
    BatchLater(cfg, tl, start, mid, time, st.components, batch);
    BatchSucceeds(cfg, tl, start, time, earlier, st.components, batch);
    BatchGone(cfg, tl, start, mid, time, earlier, st, batch);
  }

  /** One more leader was started and its record added to the state, but not written yet. */
  lemma {:induction false} RecordAdded(cfg: Config, tl: Timeline, start: nat, before: nat, time: nat, st: SessionState,
                                       batch: seq<Spawn>, registry: Option<SessionState>, c: ComponentState, s: Spawn)
    requires Batch(cfg, tl, start, before, st.components, batch) && |batch| < |cfg.components|
    requires start <= before <= time
    requires s.name == c.name == cfg.components[|batch|].name && before <= s.at && s.settled <= time
    requires Started(cfg, tl, s) && RecordOf(cfg, c, s.inst)
    requires WrittenUpTo(registry, st, |batch|) && AllReady(cfg, tl, start, before, st, |batch|)
    ensures var more := st.(components := st.components + [c]);
      && Batch(cfg, tl, start, time, more.components, batch + [s])
      && WrittenUpTo(registry, more, |batch|) && WrittenUpTo(Some(more), more, |batch| + 1)
      && AllReady(cfg, tl, start, time, more, |batch|)
  {
    BatchGrows(cfg, tl, start, before, time, st.components, batch, c, s);
    ReadyKept(cfg, tl, start, before, time, st, c, |batch|);
    WrittenGrows(registry, st, c);
  }

  /** The cleanup of a failed startup left a target of this batch alive. */
  ghost predicate Stranded(cfg: Config, tl: Timeline, start: nat, failed: nat, time: nat, batch: seq<Spawn>) {
    exists st: SessionState ::
      Batch(cfg, tl, start, failed, st.components, batch) && Survivor(cfg, tl, failed, time, st)
  }

  lemma {:induction false} BatchSince(cfg: Config, tl: Timeline, start: nat, time: nat,
                                      records: seq<ComponentState>, batch: seq<Spawn>)
    requires Batch(cfg, tl, start, time, records, batch)
    ensures StartedSince(start, batch) && SettledBy(time, batch)
  {
    forall i | 0 <= i < |batch| ensures start <= batch[i].at && batch[i].settled <= time {
      assert Enrolled(cfg, tl, start, time, records, batch, i);
    }
  }

  // ---- Why a startup fails --------------------------------------------------------------------------

  /** A spawn begun at `from` gave no process, or one that never settled. */
  ghost predicate SpawnFailed(cfg: Config, tl: Timeline, from: nat, to: nat) {
    var born := from + 1;
    (tl(born).child.None? && to == born) || exists child :: ChildFailed(cfg, tl, born, child, to)
  }

  ghost predicate ChildFailed(cfg: Config, tl: Timeline, born: nat, child: Instance, to: nat) {
    Child(tl(born), child) && NeverSettled(tl, child, cfg.uid, born + 1, to)
  }

  /** The component is not, or no longer, the recorded live process. */
  predicate Exited(w: World, configured: ComponentConfig, st: SessionState) {
    var recorded := Find(st.components, configured.name);
    recorded.None? || !Matches(w, recorded.value, ForStatus)
  }

  /** The component was never seen ready, and at the end it had exited or its polls had run out. */
  ghost predicate StayedUnready(tl: Timeline, from: nat, to: nat, configured: ComponentConfig, st: SessionState) {
    && from < to
    && (forall t :: from < t <= to ==> !ReadyAt(tl(t), configured, st))
    && (Exited(tl(to), configured, st) || to == from + 1 + tl(from).polls)
  }

  /** With these components recorded, the next one could not be spawned, or the last one is required
      and did not become ready. */
  ghost predicate BrokeAt(cfg: Config, tl: Timeline, since: nat, to: nat, st: SessionState) {
    var n := |st.components|;
    || (n < |cfg.components| && SpawnFailed(cfg, tl, since, to))
    || (&& 0 < n <= |cfg.components| && cfg.components[n - 1].required
        && StayedUnready(tl, since, to, cfg.components[n - 1], st))
  }

  /** A startup that began at `start` and recorded this batch broke at a spawn or a readiness check. */
  ghost predicate Broke(cfg: Config, tl: Timeline, start: nat, to: nat, batch: seq<Spawn>) {
    exists since: nat, st: SessionState ::
      start <= since && Batch(cfg, tl, start, to, st.components, batch) && BrokeAt(cfg, tl, since, to, st)
  }
}
