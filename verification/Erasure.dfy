/** A transaction that does not commit leaves no trace: the run with it cut out is a run, with the
    same database and the same answers for everyone else. */
module Erasure {
  import opened Basics
  import opened Repository
  import opened Orders
  import opened Machine
  import opened World

  ghost function LogWithout(log: seq<Event>, t: Tid): seq<Event> {
    if log == [] then []
    else LogWithout(log[..|log| - 1], t) + if log[|log| - 1] == Ended(t) then [] else [log[|log| - 1]]
  }

  lemma LogWithoutAppend(log: seq<Event>, e: Event, t: Tid)
    ensures LogWithout(log + [e], t) == LogWithout(log, t) + if e == Ended(t) then [] else [e]
  {
    assert (log + [e])[..|log|] == log;
  }

  /** The requests and the world without transaction t. */
  ghost function Others(reqs: Requests, t: Tid): Requests {
    reqs - {t}
  }

  ghost function Erase(w: World, t: Tid): World {
    World(w.db, Release(w.locks, t), w.txs - {t}, LogWithout(w.log, t))
  }

  ghost predicate By(a: Action, t: Tid) {
    !a.Reprice? && a.t == t
  }

  ghost function ActionsWithout(actions: seq<Action>, t: Tid): seq<Action> {
    if actions == [] then []
    else
      var last := |actions| - 1;
      ActionsWithout(actions[..last], t) + if By(actions[last], t) then [] else [actions[last]]
  }

  ghost predicate Committed(w: World, t: Tid) {
    t in w.txs && w.txs[t].Done? && w.txs[t].answer.Success?
  }

  // ----- lock tables

  lemma ReleaseOwnAcquired(locks: map<Row, Tid>, t: Tid, mine: Database)
    requires forall r :: r in Rows(mine) && r in locks ==> locks[r] == t
    ensures Release(Acquire(locks, t, mine), t) == Release(locks, t)
  {}

  lemma ReleaseOtherAcquired(locks: map<Row, Tid>, t: Tid, u: Tid, mine: Database)
    requires t != u
    ensures Release(Acquire(locks, u, mine), t) == Acquire(Release(locks, t), u, mine)
  {}

  lemma ReleaseCommutes(locks: map<Row, Tid>, t: Tid, u: Tid)
    ensures Release(Release(locks, u), t) == Release(Release(locks, t), u)
    ensures Release(Release(locks, t), t) == Release(locks, t)
  {}

  lemma OthersUpdated(txs: map<Tid, TxState>, t: Tid, u: Tid, s: TxState)
    ensures u != t ==> txs[u := s] - {t} == (txs - {t})[u := s]
    ensures txs[t := s] - {t} == txs - {t}
  {}

  // ----- steps of the erased transaction

  /** Nothing that t does before a commit shows once t is erased. */
  lemma OwnStepErased(reqs: Requests, w: World, a: Action, t: Tid)
    requires Inv(reqs, w) && Enabled(reqs, w, a) && By(a, t)
    requires !Committed(Exec(reqs, w, a), t)
    ensures Erase(Exec(reqs, w, a), t) == Erase(w, t)
  {
    var w' := Exec(reqs, w, a);
    OthersUpdated(w.txs, t, t, w'.txs[t]);
    if a.Move? && w.txs[t].Running? {
      assert !w.txs[t].progress.Leaving?;
      var s := Step(reqs[t], w.db, w.txs[t]);
      forall r | r in Rows(s.mine) && r in w.locks ensures w.locks[r] == t { AddedRowIsFree(reqs, w, t, r); }
      ReleaseOwnAcquired(w.locks, t, s.mine);
      LogWithoutAppend(w.log, Ended(t), t);
      assert LogWithout(w'.log, t) == LogWithout(w.log, t);
    } else {
      ReleaseCommutes(w.locks, t, t);
    }
  }

  // ----- steps of the others

  lemma OtherEnabled(reqs: Requests, w: World, a: Action, t: Tid)
    requires Inv(reqs, w) && Enabled(reqs, w, a) && !By(a, t)
    ensures Enabled(Others(reqs, t), Erase(w, t), a)
  {}

  lemma OtherCallErased(reqs: Requests, w: World, u: Tid, t: Tid)
    requires u in reqs && u in w.txs && u != t && w.txs[u].Running? && !w.txs[u].progress.Leaving?
    ensures CallRepository(Others(reqs, t), Erase(w, t), u) == Erase(CallRepository(reqs, w, u), t)
  {
    var s := Step(reqs[u], w.db, w.txs[u]);
    LogWithoutAppend(w.log, Ended(u), t);
    OthersUpdated(w.txs, t, u, s);
    ReleaseOtherAcquired(w.locks, t, u, s.mine);
  }

  lemma OtherCommitErased(w: World, u: Tid, t: Tid)
    requires u in w.txs && u != t && w.txs[u].Running? && w.txs[u].progress.Leaving?
    ensures Commit(Erase(w, t), u) == Erase(Commit(w, u), t)
  {
    LogWithoutAppend(w.log, Ended(u), t);
    OthersUpdated(w.txs, t, u, Done(Success(w.txs[u].progress.order)));
    ReleaseCommutes(w.locks, t, u);
  }

  lemma OtherDropErased(w: World, u: Tid, t: Tid, s: TxState)
    requires u != t
    ensures Drop(Erase(w, t), u, s) == Erase(Drop(w, u, s), t)
  {
    OthersUpdated(w.txs, t, u, s);
    ReleaseCommutes(w.locks, t, u);
  }

  lemma OtherMoveErased(reqs: Requests, w: World, u: Tid, t: Tid)
    requires Inv(reqs, w) && Enabled(reqs, w, Move(u)) && u != t
    requires Enabled(Others(reqs, t), Erase(w, t), Move(u))
    ensures Exec(Others(reqs, t), Erase(w, t), Move(u)) == Erase(Exec(reqs, w, Move(u)), t)
  {
    if w.txs[u].Aborting? {
      OtherDropErased(w, u, t, Done(Failure(w.txs[u].error)));
    } else if w.txs[u].progress.Leaving? {
      OtherCommitErased(w, u, t);
    } else {
      OtherCallErased(reqs, w, u, t);
    }
  }

  lemma OtherStepErased(reqs: Requests, w: World, a: Action, t: Tid)
    requires Inv(reqs, w) && Enabled(reqs, w, a) && !By(a, t)
    requires Enabled(Others(reqs, t), Erase(w, t), a)
    ensures Exec(Others(reqs, t), Erase(w, t), a) == Erase(Exec(reqs, w, a), t)
  {
    match a
    case Move(u) => OtherMoveErased(reqs, w, u, t);
    case Crash(u) => OtherDropErased(w, u, t, Panicked);
    case Reprice(p, price) => LogWithoutAppend(w.log, Repriced(p, price), t);
  }

  // ----- runs

  lemma StaysCommitted(reqs: Requests, w: World, a: Action, t: Tid)
    requires Inv(reqs, w) && Enabled(reqs, w, a) && Committed(w, t)
    ensures Committed(Exec(reqs, w, a), t)
  {}

  lemma InitialErased(reqs: Requests, w: World, t: Tid)
    requires Initial(reqs, w)
    ensures Initial(Others(reqs, t), Erase(w, t))
  {
    assert Release(w.locks, t) == map[];
    assert w.txs - {t} == map u | u in Others(reqs, t) :: INITIAL;
  }

  lemma CutOwn(reqs: Requests, w: World, cut: seq<Action>, mid: World, a: Action, w': World, t: Tid)
    requires Inv(reqs, mid) && Enabled(reqs, mid, a) && w' == Exec(reqs, mid, a)
    requires By(a, t) && !Committed(w', t)
    requires Run(Others(reqs, t), Erase(w, t), cut, Erase(mid, t))
    ensures Run(Others(reqs, t), Erase(w, t), cut, Erase(w', t))
  {
    OwnStepErased(reqs, mid, a, t);
  }

  lemma KeepOther(reqs: Requests, w: World, cut: seq<Action>, mid: World, a: Action, w': World, t: Tid)
    requires Inv(reqs, mid) && Enabled(reqs, mid, a) && w' == Exec(reqs, mid, a)
    requires !By(a, t)
    requires Run(Others(reqs, t), Erase(w, t), cut, Erase(mid, t))
    ensures Run(Others(reqs, t), Erase(w, t), cut + [a], Erase(w', t))
  {
    OtherEnabled(reqs, mid, a, t);
    OtherStepErased(reqs, mid, a, t);
    RunStep(Others(reqs, t), Erase(w, t), cut, Erase(mid, t), a);
  }

  /** All or nothing, without a trace: if t has not committed, cutting every step of t out of the run
      gives a run without t that ends in the same world seen without t. */
  lemma {:induction false} NoTrace(reqs: Requests, w: World, actions: seq<Action>, w': World, t: Tid)
    requires Initial(reqs, w) && Run(reqs, w, actions, w') && !Committed(w', t)
    ensures Run(Others(reqs, t), Erase(w, t), ActionsWithout(actions, t), Erase(w', t))
    decreases |actions|
  {
    if actions != [] {
      var last := |actions| - 1;
      var mid :| Run(reqs, w, actions[..last], mid)
                 && Enabled(reqs, mid, actions[last]) && w' == Exec(reqs, mid, actions[last]);
      RunsAreSerial(reqs, w, actions[..last], mid);
      if Committed(mid, t) { StaysCommitted(reqs, mid, actions[last], t); }
      NoTrace(reqs, w, actions[..last], mid, t);
      var a, cut := actions[last], ActionsWithout(actions[..last], t);
      if By(a, t) {
        CutOwn(reqs, w, cut, mid, a, w', t);
        assert ActionsWithout(actions, t) == cut;
      } else {
        KeepOther(reqs, w, cut, mid, a, w', t);
        assert ActionsWithout(actions, t) == cut + [a];
      }
    }
  }

  /** In particular the committed database and every other caller's answer are those of a run in
      which the failed or crashed transaction was never there. */
  lemma FailuresAreInvisible(reqs: Requests, w: World, actions: seq<Action>, w': World, t: Tid) returns (v: World)
    requires Initial(reqs, w) && Run(reqs, w, actions, w') && !Committed(w', t)
    ensures Initial(Others(reqs, t), Erase(w, t)) && Erase(w, t).db == w.db
    ensures Run(Others(reqs, t), Erase(w, t), ActionsWithout(actions, t), v)
    ensures v.db == w'.db && forall u :: u in w'.txs && u != t ==> u in v.txs && v.txs[u] == w'.txs[u]
  {
    InitialErased(reqs, w, t);
    NoTrace(reqs, w, actions, w', t);
    v := Erase(w', t);
  }
}
