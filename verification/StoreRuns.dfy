// What every run of the replicated store keeps, whatever the interleaving.

module StoreRuns {
  import opened Folds
  import opened Protocol

  // Nobody is up yet; the store is absent, or holds a document from before.
  ghost predicate Initial<M(!new), C(!new)>(w: World<M, C>) {
    && Lawful(w.kit) && |w.history| <= 1 && (forall k :: 0 <= k < |w.history| ==> w.history[k].origin.Edited? && w.history[k].version != NONE)
    && (forall r :: 0 <= r < |w.replicas| ==> w.replicas[r].phase.Down?)
    && w.acked == {} && !w.unsaved
  }

  ghost predicate Legal<M, C>(w: World<M, C>, run: seq<Action<M, C>>)
    decreases |run|
  {
    run == [] || (Enabled(w, run[0]) && Legal(After(w, run[0]), run[1..]))
  }

  ghost function End<M, C>(w: World<M, C>, run: seq<Action<M, C>>): World<M, C>
    requires Legal(w, run)
    decreases |run|
  {
    if run == [] then w else End(After(w, run[0]), run[1..])
  }

  ghost predicate Reaches<M(!new), C(!new)>(w0: World<M, C>, run: seq<Action<M, C>>, w: World<M, C>) {
    Initial(w0) && Legal(w0, run) && End(w0, run) == w
  }

  ghost predicate Reachable<M(!new), C(!new)>(w: World<M, C>) { exists w0, run :: Reaches(w0, run, w) }

  // w' comes after w, by steps of the protocol and nothing else.
  ghost predicate RunsBy<M, C>(w: World<M, C>, run: seq<Action<M, C>>, w': World<M, C>) { Legal(w, run) && End(w, run) == w' }

  ghost predicate Runs<M(!new), C(!new)>(w: World<M, C>, w': World<M, C>) { exists run :: RunsBy(w, run, w') }

  lemma {:induction false} RunsJoin<M(!new), C(!new)>(w: World<M, C>, a: seq<Action<M, C>>, b: seq<Action<M, C>>)
    requires Legal(w, a) && Legal(End(w, a), b)
    ensures RunsBy(w, a + b, End(End(w, a), b))
    decreases |a|
  {
    if a == [] {
      assert a + b == b;
    } else {
      assert (a + b)[1..] == a[1..] + b;
      RunsJoin(After(w, a[0]), a[1..], b);
    }
  }

  lemma RunsNowhere<M(!new), C(!new)>(w: World<M, C>)
    ensures Runs(w, w)
  {
    assert RunsBy(w, [], w);
  }

  lemma OneStepRuns<M(!new), C(!new)>(w: World<M, C>, a: Action<M, C>)
    requires Enabled(w, a)
    ensures RunsBy(w, [a], After(w, a)) && Runs(w, After(w, a))
  {
    var run, w' := [a], After(w, a);
    assert run[0] == a && run[1..] == [];
    assert Legal(w', []) && End(w', []) == w';
    assert Legal(w, run);
    assert End(w, run) == End(w', run[1..]);
    assert RunsBy(w, run, w');
  }

  lemma RunsOn<M(!new), C(!new)>(w0: World<M, C>, w1: World<M, C>, w2: World<M, C>)
    requires Runs(w0, w1) && Runs(w1, w2)
    ensures Runs(w0, w2)
  {
    var a :| RunsBy(w0, a, w1);
    var b :| RunsBy(w1, b, w2);
    RunsJoin(w0, a, b);
  }

  lemma ReachableOn<M(!new), C(!new)>(w: World<M, C>, w': World<M, C>)
    requires Reachable(w) && Runs(w, w')
    ensures Reachable(w')
  {
    var w0, a :| Reaches(w0, a, w);
    var b :| RunsBy(w, b, w');
    RunsJoin(w0, a, b);
    assert Reaches(w0, a + b, w');
  }

  // What only ever grows.
  ghost predicate Grown<M, C>(w: World<M, C>, w': World<M, C>) {
    && w'.kit == w.kit && w.history <= w'.history && w.acked <= w'.acked && (w.unsaved ==> w'.unsaved)
    && |w'.replicas| == |w.replicas|
    && forall r :: 0 <= r < |w.replicas| ==> w.replicas[r].calls <= w'.replicas[r].calls
  }

  lemma StepGrows<M, C>(w: World<M, C>, a: Action<M, C>)
    requires Enabled(w, a)
    ensures Grown(w, After(w, a))
  {
  }

  lemma {:induction false} RunGrows<M(!new), C(!new)>(w: World<M, C>, run: seq<Action<M, C>>)
    requires Legal(w, run)
    ensures Grown(w, End(w, run))
    decreases |run|
  {
    if run != [] {
      StepGrows(w, run[0]);
      RunGrows(After(w, run[0]), run[1..]);
    }
  }

  lemma RunsGrow<M(!new), C(!new)>(w: World<M, C>, w': World<M, C>)
    requires Runs(w, w')
    ensures Grown(w, w')
  {
    var run :| RunsBy(w, run, w');
    RunGrows(w, run);
  }

  // How many calls replica r makes in a run.
  function CallsMade<M, C>(run: seq<Action<M, C>>, r: nat): nat
    decreases |run|
  {
    if run == [] then 0 else (if run[0].Call? && run[0].r == r then 1 else 0) + CallsMade(run[1..], r)
  }

  // The counter counts them.
  lemma {:induction false} CallsAreCounted<M(!new), C(!new)>(w: World<M, C>, run: seq<Action<M, C>>, r: nat)
    requires Legal(w, run) && r < |w.replicas|
    ensures var w' := End(w, run);
      |w'.replicas| == |w.replicas| && w'.replicas[r].calls == w.replicas[r].calls + CallsMade(run, r)
    decreases |run|
  {
    if run != [] {
      StepGrows(w, run[0]);
      CallsAreCounted(After(w, run[0]), run[1..], r);
    }
  }

  lemma {:induction false} RunKeepsInv<M(!new), C(!new)>(w: World<M, C>, run: seq<Action<M, C>>)
    requires Inv(w) && Legal(w, run)
    ensures Inv(End(w, run))
    decreases |run|
  {
    if run != [] {
      StepKeepsInv(w, run[0]);
      RunKeepsInv(After(w, run[0]), run[1..]);
    }
  }

  lemma InitialInv<M(!new), C(!new)>(w0: World<M, C>)
    requires Initial(w0)
    ensures Inv(w0)
  {
    assert |w0.history| == 1 ==> Between(w0.history, 0, 0) == [];
    assert forall r :: 0 <= r < |w0.replicas| ==> ReplicaInv(w0, r);
  }

  lemma ReachableInv<M(!new), C(!new)>(w: World<M, C>)
    requires Reachable(w)
    ensures Inv(w)
  {
    var w0, run :| Reaches(w0, run, w);
    InitialInv(w0);
    RunKeepsInv(w0, run);
  }

  // ---- No lost update ----

  // No call's change is in the committed history twice: not across retries, and
  // not when a change whose save failed rides along with a later one.
  lemma EveryCallAtMostOnce<M(!new), C(!new)>(w: World<M, C>)
    requires Reachable(w)
    ensures DistinctIds(AllChanges(w.history))
  {
    ReachableInv(w);
  }

  // A call that was told it succeeded has exactly one commit, and that commit is
  // its change made to the document stored just before it, together with any
  // earlier change of the same replica whose save had failed.
  lemma AnsweredOnce<M(!new), C(!new)>(w: World<M, C>, id: CallId)
    requires Reachable(w) && id in w.acked
    ensures exists k: nat :: Answers(w.history, k, id) && Commits(w.kit, w.history, k)
    ensures forall k: nat, l: nat :: Answers(w.history, k, id) && Answers(w.history, l, id) ==> k == l
  {
    ReachableInv(w);
    var k: nat :| Answers(w.history, k, id);
    assert Link(w.kit, w.history, k);
    forall k: nat, l: nat | Answers(w.history, k, id) && Answers(w.history, l, id) ensures k == l {
      if k < l { AnswersOnce(w.history, k, l, id); } else if l < k { AnswersOnce(w.history, l, k, id); }
    }
  }

  // Commit k is the recorded changes made to commit k - 1.
  ghost predicate Commits<M, C>(kit: Kit<M, C>, h: seq<Commit<M, C>>, k: nat) {
    0 < k < |h| && Leads(kit, h[k - 1].content, ChangesOf(h[k].origin), h[k].content)
  }

  // Unless some save failed without landing, nothing rides along.
  lemma AcknowledgedAlone<M(!new), C(!new)>(w: World<M, C>, id: CallId)
    requires Reachable(w) && id in w.acked && !w.unsaved
    ensures exists k: nat :: Answers(w.history, k, id) && Commits(w.kit, w.history, k) && |ChangesOf(w.history[k].origin)| == 1
  {
    ReachableInv(w);
    AnsweredOnce(w, id);
  }

  lemma {:induction false} BetweenGrows<M(!new), C(!new)>(h: seq<Commit<M, C>>, m: nat, n: nat)
    requires m <= n <= |h|
    ensures Between(h, 0, m) <= Between(h, 0, n)
    decreases n
  {
    if m < n { BetweenGrows(h, m, n - 1); }
  }

  lemma LastChangeAt<M(!new), C(!new)>(h: seq<Commit<M, C>>, k: nat) returns (i: nat)
    requires k < |h| && ChangesOf(h[k].origin) != []
    ensures |Between(h, 0, k)| <= i < |Between(h, 0, k + 1)| && i < |AllChanges(h)|
    ensures AllChanges(h)[i] == ChangesOf(h[k].origin)[|ChangesOf(h[k].origin)| - 1]
  {
    var upTo := Between(h, 0, k + 1);
    i := |upTo| - 1;
    BetweenGrows(h, k + 1, |h|);
    assert AllChanges(h)[i] == upTo[i];
  }

  lemma AnswersOnce<M(!new), C(!new)>(h: seq<Commit<M, C>>, k: nat, l: nat, id: CallId)
    requires Answers(h, k, id) && Answers(h, l, id) && k < l
    ensures !DistinctIds(AllChanges(h))
  {
    var i := LastChangeAt(h, k);
    var j := LastChangeAt(h, l);
    BetweenGrows(h, k + 1, l);
  }

  // ---- The history is a sequential fold ----

  // Not made by a call: written by hand, or deleted.
  predicate FromOutside<C>(o: Origin<C>) { o.Edited? || o.Deleted? }

  lemma LinkLeads<M(!new), C(!new)>(kit: Kit<M, C>, h: seq<Commit<M, C>>, j: nat)
    requires Lawful(kit) && HistoryInv(kit, h) && 0 < j < |h| && !FromOutside(h[j].origin)
    ensures Leads(kit, h[j - 1].content, ChangesOf(h[j].origin), h[j].content)
  {
    assert Link(kit, h, j) && Link(kit, h, j - 1);
    if h[j].origin.Founding? { LeadsNowhere(kit, h[j].content); }
  }

  lemma {:induction false} HistoryLeads<M(!new), C(!new)>(kit: Kit<M, C>, h: seq<Commit<M, C>>, i: nat, j: nat)
    requires Lawful(kit) && HistoryInv(kit, h) && i <= j < |h|
    requires forall k :: i < k <= j ==> !FromOutside(h[k].origin)
    ensures Leads(kit, h[i].content, Between(h, i + 1, j + 1), h[j].content)
    decreases j
  {
    if i == j {
      LeadsNowhere(kit, h[i].content);
    } else {
      HistoryLeads(kit, h, i, j - 1);
      LinkLeads(kit, h, j);
      LeadsChain(kit, Between(h, i + 1, j), ChangesOf(h[j].origin), h[i].content, h[j - 1].content, h[j].content);
    }
  }

  // Between any two commits with no edit from outside in between, the later
  // document is the earlier one with every recorded change made to it in order.
  lemma HistoryIsAFold<M(!new), C(!new)>(w: World<M, C>, i: nat, j: nat)
    requires Reachable(w) && i <= j < |w.history|
    requires forall k :: i < k <= j ==> !FromOutside(w.history[k].origin)
    ensures Leads(w.kit, w.history[i].content, Between(w.history, i + 1, j + 1), w.history[j].content)
  {
    ReachableInv(w);
    HistoryLeads(w.kit, w.history, i, j);
  }

  // ---- Memory and the stored document ----

  // Between calls, memory is the document stored under the version it holds,
  // with what the replica's own failed saves left on top. If no save has failed
  // and that version is still the stored one, nothing is left on top.
  lemma MemoryIsCoherent<M(!new), C(!new)>(w: World<M, C>, r: nat)
    requires Reachable(w) && r < |w.replicas| && w.replicas[r].phase.Idle?
    ensures var x := w.replicas[r];
      && x.base < |w.history| && x.version == w.history[x.base].version
      && Leads(w.kit, w.history[x.base].content, x.residue, x.model)
      && (x.version == StoredVersion(w) <==> Current(w, x))
      && (!w.unsaved && Current(w, x) ==> w.kit.alike(x.model, Stored(w).content))
  {
    ReachableInv(w);
    assert ReplicaInv(w, r);
    var x := w.replicas[r];
    assert x.residue + Pending(x) == x.residue;
    CurrentByVersion(w, x);
  }

  // The last stored document delivered to a replica with no write in progress
  // leaves it with that document, even when the event is skipped as the
  // replica's own write, and whatever older documents were applied before.
  lemma DeliveryConverges<M(!new), C(!new)>(w: World<M, C>, r: nat)
    requires Reachable(w) && w.history != [] && Enabled(w, Deliver(r, |w.history| - 1))
    ensures var x := After(w, Deliver(r, |w.history| - 1)).replicas[r];
      && x.version == StoredVersion(w)
      && Leads(w.kit, Stored(w).content, x.residue, x.model)
      && (!w.unsaved ==> w.kit.alike(x.model, Stored(w).content))
  {
    MemoryIsCoherent(w, r);
    ReachableInv(w);
    LeadsNowhere(w.kit, Stored(w).content);
  }

  // ---- A superseded version ----

  ghost predicate Reads(a: Action, r: nat) {
    a == Start(r) || a == StartEmpty(r) || (a.Reload? && a.r == r) || (a.Deliver? && a.r == r)
  }

  ghost predicate Superseded<M, C>(w: World<M, C>, r: nat) {
    r < |w.replicas| && Up(w.replicas[r]) && !Current(w, w.replicas[r])
  }

  lemma SupersededStays<M(!new), C(!new)>(w: World<M, C>, r: nat, a: Action<M, C>)
    requires Inv(w) && Superseded(w, r) && Enabled(w, a) && !Reads(a, r)
    ensures !(a.Save? && a.r == r)
    ensures Superseded(After(w, a), r) || After(w, a).replicas[r].phase.Down?
  {
    assert ReplicaInv(w, r);
    CurrentByVersion(w, w.replicas[r]);
    if !Outside(a) && a.r == r {
      OwnStepStays(w, r, a);
    } else {
      OthersStepStays(w, r, a);
    }
  }

  lemma OwnStepStays<M(!new), C(!new)>(w: World<M, C>, r: nat, a: Action<M, C>)
    requires Superseded(w, r) && Enabled(w, a) && !Reads(a, r) && !Outside(a) && !a.Save? && a.r == r
    ensures Superseded(After(w, a), r) || After(w, a).replicas[r].phase.Down?
  {
    match a
    case Call(_, _, _) => 
    case SaveFails(_) =>
    case Conflict(_) =>
    case ReloadFails(_) =>
    case _ =>
  }

  lemma OthersStepStays<M(!new), C(!new)>(w: World<M, C>, r: nat, a: Action<M, C>)
    requires Superseded(w, r) && Enabled(w, a) && (Outside(a) || a.r != r)
    requires w.replicas[r].base < |w.history|
    ensures Superseded(After(w, a), r)
  {
    OthersStep(w, r, a);
  }

  // A step by somebody else leaves this replica alone and only ever adds to the history.
  lemma OthersStep<M(!new), C(!new)>(w: World<M, C>, r: nat, a: Action<M, C>)
    requires r < |w.replicas| && Enabled(w, a) && (Outside(a) || a.r != r)
    ensures var w' := After(w, a);
      |w'.replicas| == |w.replicas| && w'.replicas[r] == w.replicas[r] && w.history <= w'.history
  {
  }

  // What is built on a superseded version is never saved: until the replica
  // reads the store again, none of its saves can land.
  lemma {:induction false} SupersededNeverSaves<M(!new), C(!new)>(w: World<M, C>, r: nat, run: seq<Action<M, C>>, i: nat)
    requires Inv(w) && Superseded(w, r) && Legal(w, run) && i < |run|
    requires forall j :: 0 <= j <= i ==> !Reads(run[j], r)
    ensures !(run[i].Save? && run[i].r == r)
    decreases i
  {
    SupersededStays(w, r, run[0]);
    if i > 0 {
      var w', rest := After(w, run[0]), run[1..];
      StepKeepsInv(w, run[0]);
      assert forall j :: 0 <= j <= i - 1 ==> rest[j] == run[j + 1];
      if Superseded(w', r) {
        SupersededNeverSaves(w', r, rest, i - 1);
      } else {
        DownNeverSaves(w', r, rest, i - 1);
      }
    }
  }

  lemma {:induction false} DownNeverSaves<M(!new), C(!new)>(w: World<M, C>, r: nat, run: seq<Action<M, C>>, i: nat)
    requires r < |w.replicas| && w.replicas[r].phase.Down? && Legal(w, run) && i < |run|
    requires forall j :: 0 <= j <= i ==> !Reads(run[j], r)
    ensures !(run[i].Save? && run[i].r == r)
    decreases i
  {
    assert !Reads(run[0], r);
    if i > 0 {
      var rest := run[1..];
      assert forall j :: 0 <= j <= i - 1 ==> rest[j] == run[j + 1];
      assert After(w, run[0]).replicas[r].phase.Down?;
      DownNeverSaves(After(w, run[0]), r, rest, i - 1);
    }
  }
}
