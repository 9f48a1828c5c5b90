// What becomes of an account over a whole run: the key it is under, what a
// sign-in may touch, and an invitation that is claimed once
// (internal/store/store.go, users.go).

module Lifecycle {
  import opened AccessModel
  import opened Encoding
  import opened Folds
  import opened Changes
  import opened Protocol
  import opened StoreRuns
  import opened Provenance
  import opened Failures

  // ---- Under its own name ----

  // A restored snapshot is taken as it is, so it has to be in order already.
  ghost predicate InOrder(c: Change) {
    c.Restore? ==> WellKeyed(Decode(c.snapshot).users)
  }

  // No change puts a record under another key than that of its own name.
  lemma ChangeKeepsKeys(c: Change, now: Instant, m: Model)
    requires WellKeyed(m.users) && InOrder(c)
    ensures WellKeyed(Apply(c, now, m).model.users)
  {
  }

  ghost predicate AllKeyed(w: World<Model, Change>) {
    && (forall k :: 0 <= k < |w.history| ==> WellKeyed(w.history[k].content.users))
    && forall r :: 0 <= r < |w.replicas| ==> ReplicaKeyed(w.replicas[r])
  }

  ghost predicate ReplicaKeyed(x: Replica<Model, Change>) {
    && (!x.phase.Down? ==> WellKeyed(x.model.users))
    && (Pending(x) != [] ==> InOrder(x.phase.call.change))
  }

  ghost predicate TidyStep(a: Action<Model, Change>) {
    && (a.Edit? ==> WellKeyed(a.content.users))
    && (a.Call? ==> InOrder(a.change))
  }

  lemma RanKeyed(x: Replica<Model, Change>, call: Stamped<Change>, attempt: nat)
    requires WellKeyed(x.model.users) && InOrder(call.change)
    ensures ReplicaKeyed(Ran(Access(), x, call, attempt))
  {
    ChangeKeepsKeys(call.change, call.now, x.model);
  }

  lemma CallKeyed(w: World<Model, Change>, r: nat, change: Change, now: Instant)
    requires w.kit == Access() && r < |w.replicas| && w.replicas[r].phase.Idle? && ReplicaKeyed(w.replicas[r]) && InOrder(change)
    ensures ReplicaKeyed(Calling(w.kit, r, w.replicas[r], change, now))
  {
    var x := w.replicas[r];
    RanKeyed(x.(calls := x.calls + 1), Stamped(CallId(r, x.calls), change, now), 0);
  }

  lemma ReloadKeyed(w: World<Model, Change>, r: nat, now: Instant)
    requires w.kit == Access() && AllKeyed(w) && Enabled(w, Reload(r, now))
    ensures ReplicaKeyed(After(w, Reload(r, now)).replicas[r])
  {
    var x := w.replicas[r];
    assert ReplicaKeyed(x);
    RanKeyed(Loaded(w, x, |w.history| - 1), x.phase.call.(now := now), x.phase.attempt);
  }

  // The steps that run no change.
  lemma QuietStepKeyed(w: World<Model, Change>, a: Action<Model, Change>)
    requires AllKeyed(w) && w.kit.empty == EMPTY && Enabled(w, a) && !Outside(a) && !a.Call? && !a.Reload?
    ensures ReplicaKeyed(After(w, a).replicas[a.r])
  {
    assert ReplicaKeyed(w.replicas[a.r]);
  }

  lemma OwnStepKeyed(w: World<Model, Change>, a: Action<Model, Change>)
    requires w.kit == Access() && AllKeyed(w) && Enabled(w, a) && TidyStep(a) && !Outside(a)
    ensures ReplicaKeyed(After(w, a).replicas[a.r])
  {
    if a.Call? {
      assert ReplicaKeyed(w.replicas[a.r]);
      CallKeyed(w, a.r, a.change, a.now);
    } else if a.Reload? {
      ReloadKeyed(w, a.r, a.now);
    } else {
      QuietStepKeyed(w, a);
    }
  }

  lemma StepKeepsKeys(w: World<Model, Change>, a: Action<Model, Change>)
    requires w.kit == Access() && AllKeyed(w) && Enabled(w, a) && TidyStep(a)
    ensures AllKeyed(After(w, a)) && After(w, a).kit == Access()
  {
    var w' := After(w, a);
    forall r | 0 <= r < |w'.replicas| ensures ReplicaKeyed(w'.replicas[r]) {
      if !Outside(a) && a.r == r { OwnStepKeyed(w, a); } else { OthersStep(w, r, a); }
    }
  }

  lemma {:induction false} RunKeepsKeys(w: World<Model, Change>, run: seq<Action<Model, Change>>)
    requires w.kit == Access() && AllKeyed(w) && Legal(w, run)
    requires forall i :: 0 <= i < |run| ==> TidyStep(run[i])
    ensures AllKeyed(End(w, run))
    decreases |run|
  {
    if run != [] {
      assert TidyStep(run[0]);
      StepKeepsKeys(w, run[0]);
      RunKeepsKeys(After(w, run[0]), run[1..]);
    }
  }

  // Every document ever stored and every replica's memory keeps each record
  // under the key of its own name, as long as nobody brings in one that does not.
  lemma EveryRunKeepsKeys(w0: World<Model, Change>, run: seq<Action<Model, Change>>, w: World<Model, Change>)
    requires Reaches(w0, run, w) && w0.kit == Access()
    requires forall k :: 0 <= k < |w0.history| ==> WellKeyed(w0.history[k].content.users)
    requires forall i :: 0 <= i < |run| ==> TidyStep(run[i])
    ensures forall k :: 0 <= k < |w.history| ==> WellKeyed(w.history[k].content.users)
    ensures forall r :: 0 <= r < |w.replicas| && Up(w.replicas[r]) ==> WellKeyed(w.replicas[r].model.users)
  {
    forall r | 0 <= r < |w0.replicas| ensures ReplicaKeyed(w0.replicas[r]) {
      assert w0.replicas[r].phase.Down?;
    }
    RunKeepsKeys(w0, run);
    forall r | 0 <= r < |w.replicas| && Up(w.replicas[r]) ensures WellKeyed(w.replicas[r].model.users) {
      assert ReplicaKeyed(w.replicas[r]);
    }
  }

  // ---- What a change may touch ----

  // The change removes or replaces the whole record under k.
  predicate Uproots(c: Change, k: string) {
    c.Restore? || (c.DeleteUser? && Key(c.username) == k)
  }

  predicate Regrants(c: Change, k: string) {
    || (c.SetRoles? && Key(c.username) == k)
    || (c.ChangeMembership? && Listed(k, c.usernames))
  }

  predicate Repasswords(c: Change, k: string) {
    c.SetPassword? && Key(c.username) == k
  }

  // v is what u has become, and only roles and password may differ from it in
  // what makes the account what it is.
  predicate Standing(u: User, v: User, roles: bool, password: bool) {
    && v.firstSeen == u.firstSeen && v.managed == u.managed
    && (!roles ==> v.roles == u.roles)
    && (!password ==> v.passwordHash == u.passwordHash)
    && (!u.Invited() ==> !v.Invited())
  }

  lemma ChangeKeepsStanding(c: Change, now: Instant, m: Model, k: string)
    requires k in m.users && !Uproots(c, k)
    ensures var m' := Apply(c, now, m).model;
      k in m'.users && Standing(m.users[k], m'.users[k], Regrants(c, k), Repasswords(c, k))
  {
    if c.ChangeMembership? { MembershipKeepsStanding(c, now, m, k); }
  }

  lemma MembershipKeepsStanding(c: Change, now: Instant, m: Model, k: string)
    requires k in m.users && c.ChangeMembership?
    ensures var m' := Apply(c, now, m).model;
      k in m'.users && Standing(m.users[k], m'.users[k], Regrants(c, k), Repasswords(c, k))
  {
  }

  // ---- Over a committed history ----

  ghost predicate NeverUprooted(cs: seq<Stamped<Change>>, k: string) {
    forall i :: 0 <= i < |cs| ==> !Uproots(cs[i].change, k)
  }

  ghost predicate EverRegranted(cs: seq<Stamped<Change>>, k: string) {
    exists i :: 0 <= i < |cs| && Regrants(cs[i].change, k)
  }

  ghost predicate EverRepassworded(cs: seq<Stamped<Change>>, k: string) {
    exists i :: 0 <= i < |cs| && Repasswords(cs[i].change, k)
  }

  ghost predicate StandsAfter(m: Model, cs: seq<Stamped<Change>>, n: Model, k: string) {
    k in m.users && k in n.users && Standing(m.users[k], n.users[k], EverRegranted(cs, k), EverRepassworded(cs, k))
  }

  lemma {:induction false} FoldKeepsStanding(cs: seq<Stamped<Change>>, m: Model, k: string)
    requires k in m.users && NeverUprooted(cs, k)
    ensures StandsAfter(m, cs, Fold(Access(), cs, m), k)
  {
    if cs != [] {
      var above, last := cs[..|cs| - 1], cs[|cs| - 1];
      FoldKeepsStanding(above, m, k);
      ChangeKeepsStanding(last.change, last.now, Fold(Access(), above, m), k);
      assert EverRegranted(above, k) || Regrants(last.change, k) ==> EverRegranted(cs, k);
      assert EverRepassworded(above, k) || Repasswords(last.change, k) ==> EverRepassworded(cs, k);
    }
  }

  // From one stored document to any later one, an account that was neither
  // deleted nor restored over keeps its first-seen time and its managed flag; its
  // roles, unless somebody assigned them; its password hash, unless somebody set
  // it; and an invitation that was claimed is not an invitation again. Sign-ins
  // are among the changes in between, and are none of those exceptions.
  lemma AccountsKeepTheirStanding(w: World<Model, Change>, i: nat, j: nat, k: string)
    requires Reachable(w) && w.kit == Access() && i <= j < |w.history|
    requires forall l :: i < l <= j ==> !FromOutside(w.history[l].origin)
    requires k in w.history[i].content.users && NeverUprooted(Between(w.history, i + 1, j + 1), k)
    ensures StandsAfter(w.history[i].content, Between(w.history, i + 1, j + 1), w.history[j].content, k)
  {
    var cs := Between(w.history, i + 1, j + 1);
    HistoryIsAFold(w, i, j);
    FoldKeepsStanding(cs, w.history[i].content, k);
    var m, n := Fold(Access(), cs, w.history[i].content), w.history[j].content;
    assert Alike(n, m);
    assert AlikeUsers(n.users[k], m.users[k]);
  }

  ghost predicate UprootingAsked(w: World<Model, Change>, run: seq<Action<Model, Change>>, k: string) {
    exists id, c :: AskedIn(w, run, id, c) && Uproots(c, k)
  }

  ghost predicate RegrantAsked(w: World<Model, Change>, run: seq<Action<Model, Change>>, k: string) {
    exists id, c :: AskedIn(w, run, id, c) && Regrants(c, k)
  }

  ghost predicate RepasswordAsked(w: World<Model, Change>, run: seq<Action<Model, Change>>, k: string) {
    exists id, c :: AskedIn(w, run, id, c) && Repasswords(c, k)
  }

  // The same by what was asked for: an account that no call of the run asked to
  // delete or to restore over keeps its standing, but for roles if some call asked
  // to assign them, and for the password if some call asked to set it.
  lemma OnlyWhatWasAskedIsTouched(w0: World<Model, Change>, run: seq<Action<Model, Change>>, w: World<Model, Change>,
                                  i: nat, j: nat, k: string)
    requires Reaches(w0, run, w) && w.kit == Access() && i <= j < |w.history|
    requires forall l :: i < l <= j ==> !FromOutside(w.history[l].origin)
    requires k in w.history[i].content.users && !UprootingAsked(w0, run, k)
    ensures var users := w.history[j].content.users;
      k in users && Standing(w.history[i].content.users[k], users[k], RegrantAsked(w0, run, k), RepasswordAsked(w0, run, k))
  {
    assert Reachable(w);
    var cs := Between(w.history, i + 1, j + 1);
    forall n | 0 <= n < |cs| ensures AskedIn(w0, run, cs[n].id, cs[n].change) {
      var m := PartOfAll(w.history, i + 1, j + 1, n);
      EveryChangeWasAskedFor(w0, run, w);
    }
    AccountsKeepTheirStanding(w, i, j, k);
  }

  // ---- Failures ----

  // Saving a role always has something to write, so the change that can surface
  // after its save failed does: exactly that of a save that landed unheard, or failed
  // on a version that was still the stored one.
  lemma UntoldChangeMaySurfaceIff(w: World<Model, Change>, a: Action<Model, Change>)
    requires Inv(w) && w.kit == Access() && EndsUntold(w, a)
    ensures MaySurface(After(w, a), w.replicas[a.r].phase.call.id) <==>
            a.Save? || (a.SaveFails? && w.replicas[a.r].version == StoredVersion(w))
  {
    UntoldMaySurfaceIff(w, a, SaveRole("viewer", RoleSpec("", [], [], [])), 1);
  }

  // ---- Invitations ----

  // A sighting leaves a record that is not an invitation. If it found one, or
  // found nobody, that has to be written: it is never passed over as no change.
  lemma SightingClaims(c: Change, now: Instant, m: Model)
    requires c.RecordSeen?
    ensures var k, e := Key(c.username), Apply(c, now, m);
      && k in e.model.users && !e.model.users[k].Invited()
      && (e.outcome == Write || e.outcome == NoChange)
      && (k !in m.users || m.users[k].Invited() ==> e.outcome == Write)
      && (k in m.users ==> Standing(m.users[k], e.model.users[k], false, false))
      && (forall o :: o != k ==> (o in e.model.users <==> o in m.users))
      && (forall o :: o != k && o in m.users ==> e.model.users[o] == m.users[o])
      && e.model.roles == m.roles && e.model.lockouts == m.lockouts
  {
  }

  // The commit that answers a sign-in holds the account as claimed.
  lemma ClaimIsCommitted(w: World<Model, Change>, j: nat, id: CallId)
    requires Reachable(w) && w.kit == Access() && Answers(w.history, j, id)
    requires var cs := ChangesOf(w.history[j].origin); cs[|cs| - 1].change.RecordSeen?
    ensures var cs := ChangesOf(w.history[j].origin);
      var k, users := Key(cs[|cs| - 1].change.username), w.history[j].content.users;
      k in users && !users[k].Invited()
  {
    ReachableInv(w);
    assert Link(w.kit, w.history, j);
    var cs := ChangesOf(w.history[j].origin);
    var last, before := cs[|cs| - 1], Fold(Access(), cs[..|cs| - 1], w.history[j - 1].content);
    SightingClaims(last.change, last.now, before);
    var m := Apply(last.change, last.now, before).model;
    assert Alike(w.history[j].content, m);
    assert AlikeUsers(w.history[j].content.users[Key(last.change.username)], m.users[Key(last.change.username)]);
  }
}
