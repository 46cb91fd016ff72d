/** `AutoApplyAgentJob::handle`: the scheduled batch that runs the per-user
    auto-apply pass for every user holding a premium subscription row. */
module AgentJob {
  import opened Php
  import opened Records
  import opened JobMatcher
  import opened AutoApply

  const PremiumType := "premium"

  /** The user has a subscription row of type 'premium' (active or not). */
  predicate HasPremiumRow(u: User) {
    PremiumType in u.subscriptionTypes
  }

  /** Cashier's `subscribed('premium')`. */
  predicate Subscribed(u: User) {
    u.subscribedPremium
  }

  /** `User::whereHas('subscriptions', type = 'premium')`: the users with a
      premium subscription row, in table order. */
  function PremiumCandidates(users: seq<User>): (r: seq<User>)
    ensures forall u :: u in r <==> u in users && PremiumType in u.subscriptionTypes
    ensures IsSubsequence(r, users)
  {
    Where(users, HasPremiumRow)
  }

  /** The rows the batch appended so far, the ids of the users handed to
      `processForUser`, and the `Error` that ended the batch, if one did. */
  datatype Batch = Batch(
    logs: seq<LogEntry>,
    applications: seq<Application>,
    processed: seq<nat>,
    crashed: Option<Throwable>)

  /** The `foreach` of app/Jobs/AutoApplyAgentJob.php:38-53 over `users`: a user without an active
      premium subscription is skipped; every other user is processed against
      the tables as the earlier users left them; an `Error` escaping
      `processForUser` ends the batch. */
  function BatchRun(users: seq<User>, db: Tables, parse: JsonListParser, generate: Generator): Batch
    decreases |users|
  {
    if users == [] then Batch([], [], [], None)
    else
      var before := BatchRun(users[..|users| - 1], db, parse, generate);
      var u := users[|users| - 1];
      if before.crashed.Some? || !u.subscribedPremium then before
      else
        var e := UserEffect(u, db.(applications := db.applications + before.applications), parse, generate);
        Batch(before.logs + e.logs, before.applications + e.applications, before.processed + [u.id],
              if e.outcome.Crashed? then Some(e.outcome.error) else None)
  }

  /** Once an `Error` has escaped, the users after it are not processed. */
  lemma {:induction false} BatchCrashIsFinal(users: seq<User>, k: nat, db: Tables,
                                             parse: JsonListParser, generate: Generator)
    requires k <= |users|
    requires BatchRun(users[..k], db, parse, generate).crashed.Some?
    ensures BatchRun(users, db, parse, generate) == BatchRun(users[..k], db, parse, generate)
    decreases |users|
  {
    if k < |users| {
      var init := users[..|users| - 1];
      assert init[..k] == users[..k];
      BatchCrashIsFinal(init, k, db, parse, generate);
    } else {
      assert users[..k] == users;
    }
  }

  /** The same fact for a batch split in two: a crash in the first part
      leaves the second part unprocessed. */
  lemma CrashAbortsLaterUsers(users: seq<User>, rest: seq<User>, db: Tables,
                              parse: JsonListParser, generate: Generator)
    requires BatchRun(users, db, parse, generate).crashed.Some?
    ensures BatchRun(users + rest, db, parse, generate) == BatchRun(users, db, parse, generate)
  {
    assert (users + rest)[..|users|] == users;
    BatchCrashIsFinal(users + rest, |users|, db, parse, generate);
  }

  /** One more user: the batch state after user i, when no `Error` has
      escaped before it. */
  lemma BatchStep(users: seq<User>, i: nat, db: Tables, parse: JsonListParser, generate: Generator)
    requires i < |users|
    requires BatchRun(users[..i], db, parse, generate).crashed.None?
    ensures var before := BatchRun(users[..i], db, parse, generate);
      var u := users[i];
      var e := UserEffect(u, db.(applications := db.applications + before.applications), parse, generate);
      BatchRun(users[..i + 1], db, parse, generate)
        == if !u.subscribedPremium then before
           else Batch(before.logs + e.logs, before.applications + e.applications, before.processed + [u.id],
                      if e.outcome.Crashed? then Some(e.outcome.error) else None)
  {
    assert users[..i + 1][..i] == users[..i];
  }

  /** A user without an active premium subscription changes nothing. */
  lemma UnsubscribedUserSkipped(users: seq<User>, u: User, db: Tables,
                                parse: JsonListParser, generate: Generator)
    requires !u.subscribedPremium
    ensures BatchRun(users + [u], db, parse, generate) == BatchRun(users, db, parse, generate)
  {
    assert (users + [u])[..|users|] == users;
  }

  /** The ids of a list of users, in order. */
  function UserIds(users: seq<User>): (ids: seq<nat>)
    ensures |ids| == |users|
    ensures forall i :: 0 <= i < |users| ==> ids[i] == users[i].id
  {
    seq(|users|, i requires 0 <= i < |users| => users[i].id)
  }

  /** Only subscribed users are processed, each once and in batch order. */
  lemma {:induction false} BatchProcessesSubscribedInOrder(users: seq<User>, db: Tables,
                                                          parse: JsonListParser, generate: Generator)
    ensures var b := BatchRun(users, db, parse, generate);
      && IsSubsequence(b.processed, UserIds(users))
      && (forall id :: id in b.processed ==> exists u :: u in users && u.id == id && u.subscribedPremium)
    decreases |users|
  {
    if users != [] {
      var init := users[..|users| - 1];
      var u := users[|users| - 1];
      BatchProcessesSubscribedInOrder(init, db, parse, generate);
      var before := BatchRun(init, db, parse, generate);
      var b := BatchRun(users, db, parse, generate);
      assert UserIds(users) == UserIds(init) + [u.id];
      var processing := before.crashed.None? && u.subscribedPremium;
      assert b.processed == if processing then before.processed + [u.id] else before.processed;
      if processing {
        SubsequenceKeepLast(before.processed, UserIds(init), u.id);
      } else {
        SubsequenceSkipLast(before.processed, UserIds(init), u.id);
      }
      forall id | id in b.processed
        ensures exists v :: v in users && v.id == id && v.subscribedPremium
      {
        if id in before.processed {
          var v :| v in init && v.id == id && v.subscribedPremium;
          assert v in users;
        } else {
          assert u in users;
        }
      }
    }
  }

  /** Every row the batch writes belongs to a user it processed. */
  lemma {:induction false} BatchRowsOfProcessed(users: seq<User>, db: Tables,
                                                parse: JsonListParser, generate: Generator)
    ensures var b := BatchRun(users, db, parse, generate);
      && (forall l :: l in b.logs ==> l.userId in b.processed)
      && (forall a :: a in b.applications ==> a.userId in b.processed)
    decreases |users|
  {
    if users != [] {
      var init := users[..|users| - 1];
      var u := users[|users| - 1];
      BatchRowsOfProcessed(init, db, parse, generate);
      var before := BatchRun(init, db, parse, generate);
      if before.crashed.None? && u.subscribedPremium {
        var db' := db.(applications := db.applications + before.applications);
        UserEffectRowsBelongToUser(u, db', parse, generate);
      }
    }
  }

  /** A batch that no `Error` ended processed exactly the subscribed users,
      in order. */
  lemma {:induction false} CompleteBatchProcessesSubscribed(users: seq<User>, db: Tables,
                                                           parse: JsonListParser, generate: Generator)
    requires BatchRun(users, db, parse, generate).crashed.None?
    ensures BatchRun(users, db, parse, generate).processed == UserIds(Where(users, Subscribed))
    decreases |users|
  {
    if users != [] {
      var init := users[..|users| - 1];
      CompleteBatchProcessesSubscribed(init, db, parse, generate);
      assert UserIds(Where(init, Subscribed) + [users[|users| - 1]])
          == UserIds(Where(init, Subscribed)) + [users[|users| - 1].id];
    }
  }

  /** User ids are unique in the `users` table. */
  predicate DistinctIds(users: seq<User>) {
    forall i, j :: 0 <= i < j < |users| ==> users[i].id != users[j].id
  }

  /** A reference for the batch: every subscribed user processed against the
      tables as they were before the batch, the rows concatenated in order. */
  function Separately(users: seq<User>, db: Tables, parse: JsonListParser, generate: Generator): Batch
    decreases |users|
  {
    if users == [] then Batch([], [], [], None)
    else
      var before := Separately(users[..|users| - 1], db, parse, generate);
      var u := users[|users| - 1];
      if before.crashed.Some? || !u.subscribedPremium then before
      else
        var e := UserEffect(u, db, parse, generate);
        Batch(before.logs + e.logs, before.applications + e.applications, before.processed + [u.id],
              if e.outcome.Crashed? then Some(e.outcome.error) else None)
  }

  /** With unique user ids, the batch writes what processing each user on
      its own would: no user's result depends on whom the batch served
      first. */
  lemma {:induction false} BatchMatchesSeparateRuns(users: seq<User>, db: Tables,
                                                   parse: JsonListParser, generate: Generator)
    requires DistinctIds(users)
    ensures BatchRun(users, db, parse, generate) == Separately(users, db, parse, generate)
    decreases |users|
  {
    if users != [] {
      var init := users[..|users| - 1];
      var u := users[|users| - 1];
      assert DistinctIds(init);
      BatchMatchesSeparateRuns(init, db, parse, generate);
      var before := BatchRun(init, db, parse, generate);
      if before.crashed.None? && u.subscribedPremium {
        BatchProcessesSubscribedInOrder(init, db, parse, generate);
        BatchRowsOfProcessed(init, db, parse, generate);
        forall a | a in before.applications ensures a.userId != u.id {
          var v :| v in init && v.id == a.userId && v.subscribedPremium;
          var i :| 0 <= i < |init| && init[i] == v;
          assert users[i] == v;
        }
        UserEffectIgnoresOthersApplications(u, db, before.applications, parse, generate);
      }
    }
  }

  /** Through `handle()`, a user who lacks a premium subscription row or an
      active premium subscription gets no log and no application. */
  lemma NonPremiumUsersGetNoRows(users: seq<User>, v: User, db: Tables,
                                 parse: JsonListParser, generate: Generator)
    requires DistinctIds(users)
    requires v in users && !(HasPremiumRow(v) && Subscribed(v))
    ensures var b := BatchRun(PremiumCandidates(users), db, parse, generate);
      && (forall l :: l in b.logs ==> l.userId != v.id)
      && (forall a :: a in b.applications ==> a.userId != v.id)
  {
    var candidates := PremiumCandidates(users);
    var b := BatchRun(candidates, db, parse, generate);
    BatchProcessesSubscribedInOrder(candidates, db, parse, generate);
    BatchRowsOfProcessed(candidates, db, parse, generate);
    forall id | id in b.processed ensures id != v.id {
      var u :| u in candidates && u.id == id && u.subscribedPremium;
      assert u != v;
      var i :| 0 <= i < |users| && users[i] == u;
      var j :| 0 <= j < |users| && users[j] == v;
    }
  }

  /** One pass of the `foreach`: skips user i of the batch or hands it to
      `processForUser`, appending the rows `BatchRun` adds for it. */
  method ServeUser(store: Store, candidates: seq<User>, i: nat, ghost db: Tables, ghost logs0: seq<LogEntry>,
                   parse: JsonListParser, generate: Generator) returns (crashed: Option<Throwable>)
    requires i < |candidates|
    requires BatchRun(candidates[..i], db, parse, generate).crashed.None?
    requires store.jobs == db.jobs && store.jobTypes == db.jobTypes
    requires store.logs == logs0 + BatchRun(candidates[..i], db, parse, generate).logs
    requires store.applications == db.applications + BatchRun(candidates[..i], db, parse, generate).applications
    modifies store`logs, store`applications
    ensures var after := BatchRun(candidates[..i + 1], db, parse, generate);
      && store.logs == logs0 + after.logs
      && store.applications == db.applications + after.applications
      && crashed == after.crashed
  {
    var user := candidates[i];
    ghost var before := BatchRun(candidates[..i], db, parse, generate);
    BatchStep(candidates, i, db, parse, generate);
    if !user.subscribedPremium {
      return None;
    }
    ghost var db' := db.(applications := db.applications + before.applications);
    ghost var e := UserEffect(user, db', parse, generate);
    assert store.Snapshot() == db';
    var outcome := store.ProcessForUser(user, parse, generate);
    AppendAssociative(logs0, before.logs, e.logs);
    AppendAssociative(db.applications, before.applications, e.applications);
    crashed := if outcome.Crashed? then Some(outcome.error) else None;
  }

  /** `handle()`: runs `processForUser` for each premium candidate in turn,
      appending to the store exactly the rows `BatchRun` describes; an
      escaping `Error` ends the batch and is passed on. */
  method Handle(store: Store, users: seq<User>, parse: JsonListParser, generate: Generator)
    returns (crashed: Option<Throwable>)
    modifies store`logs, store`applications
    ensures var b := BatchRun(PremiumCandidates(users), old(store.Snapshot()), parse, generate);
      && store.logs == old(store.logs) + b.logs
      && store.applications == old(store.applications) + b.applications
      && crashed == b.crashed
  {
    var candidates := PremiumCandidates(users);
    ghost var db := store.Snapshot();
    var i := 0;
    while i < |candidates|
      invariant 0 <= i <= |candidates|
      invariant store.jobs == db.jobs && store.jobTypes == db.jobTypes
      invariant var b := BatchRun(candidates[..i], db, parse, generate);
        && b.crashed.None?
        && store.logs == old(store.logs) + b.logs
        && store.applications == db.applications + b.applications
    {
      crashed := ServeUser(store, candidates, i, db, old(store.logs), parse, generate);
      if crashed.Some? {
        BatchCrashIsFinal(candidates, i + 1, db, parse, generate);
        return;
      }
      i := i + 1;
    }
    assert candidates[..i] == candidates;
    crashed := None;
  }
}
