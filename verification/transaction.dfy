/** Nested transactions over one database connection. */
module Transactions {
  import opened Common

  /**
   The connection: a store, the copy kept since the real transaction began, and how many requests were
   made and failed, and how many real commits and rollbacks were issued. Whether the n-th request to the
   server succeeds is not known.
   */
  class Connection<S> {
    var store: S
    var saved: S
    var open: bool
    var requests: nat
    var failures: nat
    var commits: nat
    var rollbacks: nat
    const succeeds: nat -> bool

    constructor (initial: S, succeeds: nat -> bool)
      ensures store == initial && !open && requests == failures == commits == rollbacks == 0
      ensures this.succeeds == succeeds
    {
      store, saved, open := initial, initial, false;
      requests, failures, commits, rollbacks := 0, 0, 0, 0;
      this.succeeds := succeeds;
    }

    /** What survives if the connection is lost now. */
    function Durable(): S
      reads this
    {
      if open then saved else store
    }

    /** One more request was made, and may have failed. */
    twostate predicate Asked()
      reads this
    {
      requests == old(requests) + 1 && failures == old(failures) + if succeeds(old(requests)) then 0 else 1
    }

    method Request() returns (ok: bool)
      modifies this`requests, this`failures
      ensures Asked() && ok == succeeds(old(requests))
    {
      ok := succeeds(requests);
      requests := requests + 1;
      failures := failures + if ok then 0 else 1;
    }

    /** Fails when a transaction is already open. */
    method Begin() returns (ok: bool)
      modifies this
      ensures ok == (!old(open) && succeeds(old(requests))) && Asked()
      ensures store == old(store) && commits == old(commits) && rollbacks == old(rollbacks)
      ensures if ok then open && saved == old(store) else open == old(open) && saved == old(saved)
    {
      var granted := Request();
      ok := granted && !open;
      if ok {
        saved := store;
        open := true;
      }
    }

    method Commit() returns (ok: bool)
      modifies this
      ensures ok == (old(open) && succeeds(old(requests))) && Asked()
      ensures store == old(store) && saved == old(saved)
      ensures open == (old(open) && !ok)
      ensures commits == old(commits) + 1 && rollbacks == old(rollbacks)
    {
      var granted := Request();
      commits := commits + 1;
      ok := granted && open;
      if ok {
        open := false;
      }
    }

    method Rollback() returns (ok: bool)
      modifies this
      ensures ok == (old(open) && succeeds(old(requests))) && Asked()
      ensures if ok then store == old(saved) && !open else store == old(store) && open == old(open)
      ensures saved == old(saved)
      ensures rollbacks == old(rollbacks) + 1 && commits == old(commits)
    {
      var granted := Request();
      rollbacks := rollbacks + 1;
      ok := granted && open;
      if ok {
        store := saved;
        open := false;
      }
    }

    method Write(s: S)
      modifies this`store
      ensures store == s
    {
      store := s;
    }
  }

  /** One of the next n requests to the server fails. */
  ghost predicate SomeFailed(succeeds: nat -> bool, from: nat, n: nat) {
    exists k: nat :: from <= k < from + n && !succeeds(k)
  }

  /** Success exactly when no request that was made failed. */
  twostate predicate AsRequested<S>(db: Connection<S>, ok: bool)
    reads db
  {
    old(db.failures) <= db.failures && ok == (db.failures == old(db.failures))
  }

  /** Counts open levels; only the outermost one reaches the connection. */
  class NestedTransaction<S> {
    const db: Connection<S>
    var level: nat
    var clean: bool

    constructor (db: Connection<S>)
      ensures this.db == db && level == 0 && clean
    {
      this.db := db;
      level, clean := 0, true;
    }

    method TrBegin() returns (status: bool)
      modifies this, db
      ensures level == old(level) + 1
      ensures old(level) > 0 ==> status && clean == old(clean) && unchanged(db)
      ensures old(level) == 0 ==>
        && status == clean == (!old(db.open) && db.succeeds(old(db.requests)))
        && db.Asked()
        && db.store == old(db.store) && db.commits == old(db.commits) && db.rollbacks == old(db.rollbacks)
        && (if status then db.open && db.saved == old(db.store) else db.open == old(db.open) && db.saved == old(db.saved))
    {
      status := true;
      level := level + 1;
      if level == 1 {
        status := db.Begin();
        clean := status;
      }
    }

    method TrCommit() returns (status: bool)
      requires level > 0
      modifies this, db
      ensures level == old(level) - 1 && clean == old(clean)
      ensures level > 0 ==> status && unchanged(db)
      ensures level == 0 && clean ==>
        && status == (old(db.open) && db.succeeds(old(db.requests)))
        && db.store == old(db.store) && db.saved == old(db.saved) && db.open == (old(db.open) && !status)
        && db.commits == old(db.commits) + 1 && db.rollbacks == old(db.rollbacks)
      ensures level == 0 && !clean ==>
        && !status && db.saved == old(db.saved)
        && (if old(db.open) && db.succeeds(old(db.requests)) then db.store == old(db.saved) && !db.open
            else db.store == old(db.store) && db.open == old(db.open))
        && db.commits == old(db.commits) && db.rollbacks == old(db.rollbacks) + 1
      ensures level == 0 ==> db.Asked()
    {
      status := false;
      level := level - 1;
      if level == 0 {
        if clean {
          status := db.Commit();
        } else {
          var _ := db.Rollback();
        }
      } else {
        status := true;
      }
    }

    method TrRollback() returns (status: bool)
      requires level > 0
      modifies this, db
      ensures level == old(level) - 1 && !clean
      ensures level > 0 ==> status && unchanged(db)
      ensures level == 0 ==>
        && !status && db.saved == old(db.saved) && db.Asked()
        && (if old(db.open) && db.succeeds(old(db.requests)) then db.store == old(db.saved) && !db.open
            else db.store == old(db.store) && db.open == old(db.open))
        && db.commits == old(db.commits) && db.rollbacks == old(db.rollbacks) + 1
    {
      clean := false;
      status := TrCommit();
    }
  }

  /** One scope: it commits at most once and rolls back when destroyed without a commit. */
  class Transaction<S> {
    const db: NestedTransaction<S>
    var committed: bool

    constructor (db: NestedTransaction<S>)
      ensures this.db == db && !committed
    {
      this.db := db;
      committed := false;
    }

    method Begin() returns (status: bool)
      modifies db, db.db
      ensures db.level == old(db.level) + 1
      ensures old(db.level) > 0 ==> status && db.clean == old(db.clean) && unchanged(db.db)
      ensures old(db.level) == 0 ==>
        && status == db.clean == (!old(db.db.open) && db.db.succeeds(old(db.db.requests)))
        && db.db.Asked()
        && db.db.store == old(db.db.store) && db.db.commits == old(db.db.commits) && db.db.rollbacks == old(db.db.rollbacks)
        && (if status then db.db.open && db.db.saved == old(db.db.store) else db.db.open == old(db.db.open) && db.db.saved == old(db.db.saved))
    {
      status := db.TrBegin();
    }

    method Commit() returns (status: bool)
      requires db.level > 0
      modifies this, db, db.db
      ensures committed
      ensures db.level == old(db.level) - 1 && db.clean == old(db.clean)
      ensures db.level > 0 ==> status && unchanged(db.db)
      ensures db.level == 0 && db.clean ==>
        && status == (old(db.db.open) && db.db.succeeds(old(db.db.requests)))
        && db.db.store == old(db.db.store) && db.db.saved == old(db.db.saved) && db.db.open == (old(db.db.open) && !status)
        && db.db.commits == old(db.db.commits) + 1 && db.db.rollbacks == old(db.db.rollbacks)
      ensures db.level == 0 && !db.clean ==>
        && !status && db.db.saved == old(db.db.saved)
        && (if old(db.db.open) && db.db.succeeds(old(db.db.requests)) then db.db.store == old(db.db.saved) && !db.db.open
            else db.db.store == old(db.db.store) && db.db.open == old(db.db.open))
        && db.db.commits == old(db.db.commits) && db.db.rollbacks == old(db.db.rollbacks) + 1
      ensures db.level == 0 ==> db.db.Asked()
    {
      committed := true;
      status := db.TrCommit();
    }

    method Destroy()
      requires !committed ==> db.level > 0
      modifies db, db.db
      ensures committed ==> unchanged(db) && unchanged(db.db)
      ensures !committed ==>
        && db.level == old(db.level) - 1 && !db.clean
        && (db.level > 0 ==> unchanged(db.db))
        && (db.level == 0 ==>
            && db.db.saved == old(db.db.saved) && db.db.Asked()
            && (if old(db.db.open) && db.db.succeeds(old(db.db.requests)) then db.db.store == old(db.db.saved) && !db.db.open
                else db.db.store == old(db.db.store) && db.db.open == old(db.db.open))
            && db.db.commits == old(db.db.commits) && db.db.rollbacks == old(db.db.rollbacks) + 1)
    {
      if !committed {
        var _ := db.TrRollback();
      }
    }
  }

  // ---------------------------------------------------------------------------
  // Trees of transactions
  // ---------------------------------------------------------------------------

  /** A scope with its writes and inner scopes in order; it commits at its end or is only destroyed. */
  datatype Tx<S> = Tx(works: Works<S>, commits: bool)

  datatype Works<S> = Done | Write(s: S, next: Works<S>) | Nested(tx: Tx<S>, next: Works<S>)

  predicate AllCommit<S>(tx: Tx<S>) {
    tx.commits && WorksCommit(tx.works)
  }

  predicate WorksCommit<S>(works: Works<S>) {
    match works
    case Done => true
    case Write(_, next) => WorksCommit(next)
    case Nested(tx, next) => AllCommit(tx) && WorksCommit(next)
  }

  /** The store after all writes of the scope and its inner scopes. */
  function Written<S>(tx: Tx<S>, s: S): S {
    WorksWritten(tx.works, s)
  }

  function WorksWritten<S>(works: Works<S>, s: S): S {
    match works
    case Done => s
    case Write(w, next) => WorksWritten(next, w)
    case Nested(tx, next) => WorksWritten(next, Written(tx, s))
  }

  /** Inner scopes only record whether all of them committed. */
  method RunInner<S>(nt: NestedTransaction<S>, tx: Tx<S>)
    requires nt.level > 0
    modifies nt, nt.db
    ensures nt.level == old(nt.level)
    ensures nt.clean == (old(nt.clean) && AllCommit(tx))
    ensures nt.db.store == Written(tx, old(nt.db.store))
    ensures nt.db.saved == old(nt.db.saved) && nt.db.open == old(nt.db.open) && nt.db.requests == old(nt.db.requests) && nt.db.failures == old(nt.db.failures)
    ensures nt.db.commits == old(nt.db.commits) && nt.db.rollbacks == old(nt.db.rollbacks)
    decreases tx
  {
    var t := new Transaction(nt);
    var begun := t.Begin();
    RunWorks(nt, tx.works);
    if tx.commits {
      var _ := t.Commit();
    }
    t.Destroy();
  }

  method RunWorks<S>(nt: NestedTransaction<S>, works: Works<S>)
    requires nt.level > 0
    modifies nt, nt.db
    ensures nt.level == old(nt.level)
    ensures nt.clean == (old(nt.clean) && WorksCommit(works))
    ensures nt.db.store == WorksWritten(works, old(nt.db.store))
    ensures nt.db.saved == old(nt.db.saved) && nt.db.open == old(nt.db.open) && nt.db.requests == old(nt.db.requests) && nt.db.failures == old(nt.db.failures)
    ensures nt.db.commits == old(nt.db.commits) && nt.db.rollbacks == old(nt.db.rollbacks)
    decreases works
  {
    match works
    case Done =>
    case Write(s, next) =>
      nt.db.Write(s);
      RunWorks(nt, next);
    case Nested(tx, next) =>
      RunInner(nt, tx);
      RunWorks(nt, next);
  }

  /** The outermost scope; a failed begin skips the work, as the error it raises does. */
  method RunOutermost<S>(nt: NestedTransaction<S>, tx: Tx<S>) returns (begun: bool, status: bool)
    requires nt.level == 0
    modifies nt, nt.db
    ensures nt.level == 0
    ensures begun == (!old(nt.db.open) && nt.db.succeeds(old(nt.db.requests)))
    // the real commit is issued exactly when the begin succeeded and the whole tree committed
    ensures nt.db.commits == old(nt.db.commits) + (if begun && AllCommit(tx) then 1 else 0)
    ensures nt.db.rollbacks == old(nt.db.rollbacks) + (if begun && AllCommit(tx) then 0 else 1)
    ensures status == (begun && AllCommit(tx) && nt.db.succeeds(old(nt.db.requests) + 1))
    ensures status ==> !nt.db.open && nt.db.store == Written(tx, old(nt.db.store))
    // without success nothing becomes durable, and a rollback that works restores the old store
    ensures !status ==> nt.db.Durable() == old(nt.db.Durable())
    ensures !(begun && AllCommit(tx)) && !nt.db.open ==> nt.db.store == old(nt.db.Durable())
    ensures begun && !AllCommit(tx) ==> nt.db.open == !nt.db.succeeds(old(nt.db.requests) + 1)
    // a real commit that fails is not followed by a rollback: its writes stay visible until the next scope
    ensures begun && AllCommit(tx) && !status ==> nt.db.open && nt.db.store == Written(tx, old(nt.db.store))
  {
    var t := new Transaction(nt);
    begun := t.Begin();
    status := false;
    if begun {
      RunWorks(nt, tx.works);
      if tx.commits {
        status := t.Commit();
      }
    }
    t.Destroy();
  }

  // ---------------------------------------------------------------------------
  // "Every transaction in the tree", as a flat list
  // ---------------------------------------------------------------------------

  function Scopes<S>(tx: Tx<S>): seq<bool> {
    [tx.commits] + InnerScopes(tx.works)
  }

  function InnerScopes<S>(works: Works<S>): seq<bool> {
    match works
    case Done => []
    case Write(_, next) => InnerScopes(next)
    case Nested(tx, next) => Scopes(tx) + InnerScopes(next)
  }

  lemma {:induction false} AllCommitMeansEveryScope<S>(tx: Tx<S>)
    ensures AllCommit(tx) <==> false !in Scopes(tx)
    decreases tx
  {
    InnerCommitMeansEveryScope(tx.works);
  }

  lemma {:induction false} InnerCommitMeansEveryScope<S>(works: Works<S>)
    ensures WorksCommit(works) <==> false !in InnerScopes(works)
    decreases works
  {
    match works
    case Done =>
    case Write(_, next) => InnerCommitMeansEveryScope(next);
    case Nested(tx, next) =>
      AllCommitMeansEveryScope(tx);
      InnerCommitMeansEveryScope(next);
  }
}
