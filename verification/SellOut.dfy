/** Concurrent buyers of one product sell exactly what there is. */
module SellOut {
  import opened Basics
  import opened Uuid
  import opened Domain
  import opened Merge
  import opened Repository
  import opened Orders
  import opened Machine
  import opened World
  import opened Effects
  import opened Conservation
  import opened Outcome

  /** A Create of a single line: q units of p, under any spelling. */
  ghost predicate Buys(req: Request, p: Uuid, q: int) {
    && req.Create? && |req.lines| == 1
    && Parse(req.lines[0].productId) == Some(p) && req.lines[0].quantity == q
  }

  lemma OneLineMerged(lines: seq<Line>)
    requires |lines| == 1
    ensures MergeOf(lines) == lines
  {
    assert lines[..0] == [];
    assert lines == [lines[0]];
  }

  /** Alone, a buyer succeeds exactly when the stock suffices, and takes q units. */
  lemma BuyerOutcome(db: Database, req: Request, p: Uuid, q: int)
    requires ConstraintsHold(db) && Buys(req, p, q) && q > 0 && p in db.products
    requires req.user in db.users && req.newId !in db.orders
    ensures var (db', answer) := Apply(db, req);
            && (answer.Success? <==> db.products[p].stock >= q)
            && p in db'.products
            && db'.products[p].stock == db.products[p].stock - if answer.Success? then q else 0
  {
    var line := req.lines[0];
    OneLineMerged(req.lines);
    CreateOutcome(db, req);
    assert req.lines[..0] == [] && FirstRefusal(db, []) == None;
    assert ProductOk(db.products[p]);
    assert FirstRefusal(db, req.lines) == Refusal(db, [], line);
    if Apply(db, req).1.Success? {
      CreateEffect(db, req);
      var items := Apply(db, req).1.value.items;
      assert items[0] == Bought(line, db.products[p].price) && items[1..] == [];
      assert Units(items[1..], p) == 0;
      assert Units(items, p) == q;
    }
  }

  // ----- counting along the history

  ghost function EndedSet(log: seq<Event>): set<Tid> {
    if log == [] then {}
    else EndedSet(log[..|log| - 1]) + if log[|log| - 1].Ended? then {log[|log| - 1].t} else {}
  }

  ghost predicate WinsLast(reqs: Requests, db0: Database, log: seq<Event>)
    requires log != []
  {
    var n := |log| - 1;
    log[n].Ended? && log[n].t in reqs && Apply(Replay(db0, reqs, log[..n]), reqs[log[n].t]).1.Success?
  }

  ghost function Winners(reqs: Requests, db0: Database, log: seq<Event>): set<Tid> {
    if log == [] then {}
    else Winners(reqs, db0, log[..|log| - 1]) + if WinsLast(reqs, db0, log) then {log[|log| - 1].t} else {}
  }

  ghost predicate EndsOnce(log: seq<Event>) {
    forall i, j :: 0 <= i < j < |log| && log[i].Ended? ==> log[i] != log[j]
  }

  lemma {:induction false} EndedMembers(log: seq<Event>, t: Tid)
    ensures t in EndedSet(log) <==> Ended(t) in log
  {
    if log != [] {
      var n := |log| - 1;
      EndedMembers(log[..n], t);
      assert log == log[..n] + [log[n]];
    }
  }

  lemma {:induction false} WinnersEnded(reqs: Requests, db0: Database, log: seq<Event>)
    ensures Winners(reqs, db0, log) <= EndedSet(log)
  {
    if log != [] {
      WinnersEnded(reqs, db0, log[..|log| - 1]);
    }
  }

  lemma LastWinner(reqs: Requests, db0: Database, log: seq<Event>)
    requires log != [] && EndsOnce(log) && log[|log| - 1].Ended?
    ensures log[|log| - 1].t in Winners(reqs, db0, log) <==> WinsLast(reqs, db0, log)
  {
    EndsOnceFresh(log);
    WinnersEnded(reqs, db0, log[..|log| - 1]);
  }

  lemma EarlierWinner(reqs: Requests, db0: Database, log: seq<Event>, i: nat)
    requires i < |log| - 1 && log[i].Ended? && EndsOnce(log)
    ensures log[i].t in Winners(reqs, db0, log) <==> log[i].t in Winners(reqs, db0, log[..|log| - 1])
  {
    assert log[i] != log[|log| - 1];
  }

  lemma {:induction false} WinnerWon(reqs: Requests, db0: Database, log: seq<Event>, i: nat)
    requires i < |log| && log[i].Ended? && log[i].t in reqs && EndsOnce(log)
    ensures log[i].t in Winners(reqs, db0, log) <==> WinsLast(reqs, db0, log[..i + 1])
  {
    if i < |log| - 1 {
      EarlierWinner(reqs, db0, log, i);
      EndsOncePrefix(log);
      assert log[..|log| - 1][..i + 1] == log[..i + 1];
      WinnerWon(reqs, db0, log[..|log| - 1], i);
    } else {
      assert log[..i + 1] == log;
      LastWinner(reqs, db0, log);
    }
  }

  lemma EndsOnceFresh(log: seq<Event>)
    requires log != [] && EndsOnce(log) && log[|log| - 1].Ended?
    ensures log[|log| - 1].t !in EndedSet(log[..|log| - 1])
  {
    var n := |log| - 1;
    EndedMembers(log[..n], log[n].t);
    forall i | 0 <= i < n ensures log[..n][i] != log[n] { assert log[..n][i] == log[i]; }
  }

  /** New orders in a history carry the ids of the transactions in it. */
  lemma {:induction false} HistoryOrders(reqs: Requests, db0: Database, log: seq<Event>, k: Uuid)
    requires k in Replay(db0, reqs, log).orders && k !in db0.orders
    ensures exists t :: t in EndedSet(log) && t in reqs && reqs[t].Create? && reqs[t].newId == k
  {
    var n := |log| - 1;
    var mid := Replay(db0, reqs, log[..n]);
    if k in mid.orders {
      HistoryOrders(reqs, db0, log[..n], k);
    } else {
      var t := log[n].t;
      if reqs[t].Create? {
        CreateEffect(mid, reqs[t]);
      } else if reqs[t].Cancel? {
        var o := CancelEffect(mid, reqs[t]);
      } else {
        var o := ConfirmEffect(mid, reqs[t]);
      }
      assert t in EndedSet(log) && reqs[t].newId == k;
    }
  }

  /** How many of n buyers of q units are served from a stock of s, one after the other. */
  function Served(s: int, q: nat, n: nat): nat {
    if n == 0 then 0 else Served(s, q, n - 1) + if LeftOver(s, q, n - 1) >= q then 1 else 0
  }

  function LeftOver(s: int, q: nat, n: nat): int {
    if n == 0 then s else LeftOver(s, q, n - 1) - if LeftOver(s, q, n - 1) >= q then q else 0
  }

  function Min(a: int, b: int): int {
    if a <= b then a else b
  }

  lemma MulMonotone(q: nat, a: nat, b: nat)
    requires a <= b
    ensures q * a <= q * b
  {}

  lemma QuotientStep(s: nat, q: nat, won: nat)
    requires q > 0
    ensures s - q * won >= q <==> won + 1 <= s / q
  {
    assert s == q * (s / q) + s % q;
    if won + 1 <= s / q {
      MulMonotone(q, won + 1, s / q);
    } else {
      MulMonotone(q, s / q + 1, won + 1);
    }
  }

  lemma {:induction false} ServedExactly(s: nat, q: nat, n: nat)
    requires q > 0
    ensures Served(s, q, n) == Min(n, s / q)
    ensures LeftOver(s, q, n) == s - q * Served(s, q, n)
  {
    if n > 0 {
      ServedExactly(s, q, n - 1);
      QuotientStep(s, q, Served(s, q, n - 1));
    } else {
      assert s / q >= 0;
    }
  }

  /** After the given transactions ended and the given ones won, the database is as if the buyers had
      been served one after the other. */
  ghost predicate InTurn(db0: Database, db: Database, ended: set<Tid>, winners: set<Tid>, p: Uuid, q: nat)
    requires p in db0.products
  {
    var s := db0.products[p].stock;
    && p in db.products && db.users == db0.users
    && |winners| == Served(s, q, |ended|)
    && db.products[p].stock == LeftOver(s, q, |ended|)
  }

  ghost predicate SoldInTurn(reqs: Requests, db0: Database, log: seq<Event>, p: Uuid, q: nat)
    requires p in db0.products
  {
    InTurn(db0, Replay(db0, reqs, log), EndedSet(log), Winners(reqs, db0, log), p, q)
  }

  /** One more buyer, who wins exactly if q units are left. */
  lemma TurnStep(db0: Database, mid: Database, db: Database, p: Uuid, q: nat, won: bool,
                 ended: set<Tid>, winners: set<Tid>, ended': set<Tid>, winners': set<Tid>)
    requires p in db0.products && InTurn(db0, mid, ended, winners, p, q)
    requires p in db.products && db.users == db0.users
    requires won <==> mid.products[p].stock >= q
    requires db.products[p].stock == mid.products[p].stock - if won then q else 0
    requires |ended'| == |ended| + 1 && |winners'| == |winners| + if won then 1 else 0
    ensures InTurn(db0, db, ended', winners', p, q)
  {
    OneMoreServed(db0.products[p].stock, q, |ended|);
  }

  ghost predicate AllBuyers(reqs: Requests, db: Database, p: Uuid, q: nat) {
    forall t :: t in reqs ==> Buys(reqs[t], p, q) && reqs[t].user in db.users
  }

  lemma BuyerStillFresh(reqs: Requests, db0: Database, log: seq<Event>, t: Tid)
    requires FreshIds(reqs, db0) && t in reqs && reqs[t].Create? && t !in EndedSet(log)
    ensures reqs[t].newId !in Replay(db0, reqs, log).orders
  {
    if reqs[t].newId in Replay(db0, reqs, log).orders {
      HistoryOrders(reqs, db0, log, reqs[t].newId);
    }
  }

  /** The last buyer of a history wins exactly if q units are left, and takes them. */
  lemma LastBuyer(reqs: Requests, db0: Database, log: seq<Event>, p: Uuid, q: nat)
    requires Healthy(db0) && p in db0.products && q > 0 && log != []
    requires FreshIds(reqs, db0) && EndsOnce(log) && AllBuyers(reqs, db0, p, q)
    requires log[|log| - 1].Ended? && log[|log| - 1].t in reqs
    requires Replay(db0, reqs, log[..|log| - 1]).users == db0.users
    ensures var mid, db := Replay(db0, reqs, log[..|log| - 1]), Replay(db0, reqs, log);
            && p in mid.products && p in db.products && db.users == db0.users
            && (WinsLast(reqs, db0, log) <==> mid.products[p].stock >= q)
            && db.products[p].stock == mid.products[p].stock - if WinsLast(reqs, db0, log) then q else 0
  {
    var n := |log| - 1;
    var t, mid := log[n].t, Replay(db0, reqs, log[..n]);
    HistorySupply(reqs, db0, log[..n]);
    EndsOnceFresh(log);
    BuyerStillFresh(reqs, db0, log[..n], t);
    assert Buys(reqs[t], p, q);
    BuyerOutcome(mid, reqs[t], p, q);
    TransactionKeepsCatalogue(mid, reqs[t]);
  }

  lemma OneMore(s: set<Tid>, t: Tid)
    requires t !in s
    ensures |s + {t}| == |s| + 1
  {}

  lemma CountsGrow(reqs: Requests, db0: Database, log: seq<Event>)
    requires log != [] && EndsOnce(log) && log[|log| - 1].Ended?
    ensures |EndedSet(log)| == |EndedSet(log[..|log| - 1])| + 1
    ensures |Winners(reqs, db0, log)|
         == |Winners(reqs, db0, log[..|log| - 1])| + if WinsLast(reqs, db0, log) then 1 else 0
  {
    var n := |log| - 1;
    EndsOnceFresh(log);
    WinnersEnded(reqs, db0, log[..n]);
    OneMore(EndedSet(log[..n]), log[n].t);
    OneMore(Winners(reqs, db0, log[..n]), log[n].t);
  }

  lemma OneMoreServed(s: int, q: nat, n: nat)
    ensures Served(s, q, n + 1) == Served(s, q, n) + if LeftOver(s, q, n) >= q then 1 else 0
    ensures LeftOver(s, q, n + 1) == LeftOver(s, q, n) - if LeftOver(s, q, n) >= q then q else 0
  {}

  lemma BuyerSells(reqs: Requests, db0: Database, log: seq<Event>, p: Uuid, q: nat)
    requires Healthy(db0) && p in db0.products && q > 0 && log != []
    requires FreshIds(reqs, db0) && EndsOnce(log) && AllBuyers(reqs, db0, p, q)
    requires log[|log| - 1].Ended? && log[|log| - 1].t in reqs
    requires SoldInTurn(reqs, db0, log[..|log| - 1], p, q)
    ensures SoldInTurn(reqs, db0, log, p, q)
  {
    LastBuyer(reqs, db0, log, p, q);
    CountsGrow(reqs, db0, log);
    var init := log[..|log| - 1];
    TurnStep(db0, Replay(db0, reqs, init), Replay(db0, reqs, log), p, q, WinsLast(reqs, db0, log),
             EndedSet(init), Winners(reqs, db0, init), EndedSet(log), Winners(reqs, db0, log));
  }

  lemma RepriceCounts(reqs: Requests, db0: Database, log: seq<Event>)
    requires log != [] && log[|log| - 1].Repriced?
    ensures EndedSet(log) == EndedSet(log[..|log| - 1])
    ensures Winners(reqs, db0, log) == Winners(reqs, db0, log[..|log| - 1])
  {}

  lemma RepriceInTurn(db0: Database, db: Database, x: Uuid, price: real, ended: set<Tid>, winners: set<Tid>, p: Uuid, q: nat)
    requires p in db0.products && InTurn(db0, db, ended, winners, p, q)
    ensures InTurn(db0, SetPrice(db, x, price), ended, winners, p, q)
  {}

  lemma RepriceSells(reqs: Requests, db0: Database, log: seq<Event>, p: Uuid, q: nat)
    requires p in db0.products && log != [] && log[|log| - 1].Repriced?
    requires SoldInTurn(reqs, db0, log[..|log| - 1], p, q)
    ensures SoldInTurn(reqs, db0, log, p, q)
  {
    var init := log[..|log| - 1];
    RepriceCounts(reqs, db0, log);
    assert Replay(db0, reqs, log) == SetPrice(Replay(db0, reqs, init), log[|log| - 1].p, log[|log| - 1].price);
    RepriceInTurn(db0, Replay(db0, reqs, init), log[|log| - 1].p, log[|log| - 1].price, EndedSet(init),
                  Winners(reqs, db0, init), p, q);
  }

  ghost predicate Known(reqs: Requests, log: seq<Event>) {
    forall i :: 0 <= i < |log| && log[i].Ended? ==> log[i].t in reqs
  }

  lemma PrefixKnown(reqs: Requests, log: seq<Event>)
    requires log != [] && Known(reqs, log)
    ensures Known(reqs, log[..|log| - 1])
  {}

  lemma EndsOncePrefix(log: seq<Event>)
    requires log != [] && EndsOnce(log)
    ensures EndsOnce(log[..|log| - 1])
  {}

  lemma {:induction false} HistorySells(reqs: Requests, db0: Database, log: seq<Event>, p: Uuid, q: nat)
    requires Healthy(db0) && p in db0.products && q > 0
    requires FreshIds(reqs, db0) && EndsOnce(log) && AllBuyers(reqs, db0, p, q)
    requires Known(reqs, log)
    ensures SoldInTurn(reqs, db0, log, p, q)
  {
    if log != [] {
      var n := |log| - 1;
      PrefixKnown(reqs, log);
      EndsOncePrefix(log);
      HistorySells(reqs, db0, log[..n], p, q);
      if log[n].Ended? {
        BuyerSells(reqs, db0, log, p, q);
      } else {
        RepriceSells(reqs, db0, log, p, q);
      }
    }
  }

  ghost predicate Answered(w: World, t: Tid) {
    t in w.txs && w.txs[t].Done?
  }

  ghost predicate Won(w: World, t: Tid) {
    Answered(w, t) && w.txs[t].answer.Success?
  }

  lemma WinnerIsAnswer(reqs: Requests, db0: Database, w: World, t: Tid)
    requires Inv(reqs, w) && Serial(reqs, db0, w)
    requires forall x :: x in reqs ==> !Unfinished(w.txs[x])
    ensures t in EndedSet(w.log) <==> t in reqs && Answered(w, t)
    ensures t in Winners(reqs, db0, w.log) <==> t in reqs && Won(w, t)
  {
    WinnersEnded(reqs, db0, w.log);
    EndedMembers(w.log, t);
    if Ended(t) in w.log {
      var i :| 0 <= i < |w.log| && w.log[i] == Ended(t);
      assert AnswerAt(reqs, db0, w, i);
      PrefixGrows(w.log, i);
      WinnerWon(reqs, db0, w.log, i);
    }
  }

  lemma WinnersAreAnswers(reqs: Requests, db0: Database, w: World)
    requires Inv(reqs, w) && Serial(reqs, db0, w)
    requires forall t :: t in reqs ==> !Unfinished(w.txs[t])
    ensures EndedSet(w.log) == set t | t in reqs && Answered(w, t)
    ensures Winners(reqs, db0, w.log) == set t | t in reqs && Won(w, t)
  {
    forall t
      ensures t in EndedSet(w.log) <==> t in reqs && Answered(w, t)
      ensures t in Winners(reqs, db0, w.log) <==> t in reqs && Won(w, t)
    {
      WinnerIsAnswer(reqs, db0, w, t);
    }
  }

  /** Exact sell-out: when every buyer of q units of p has been answered or has crashed, the winners
      among the n answered ones are min(n, stock / q), and the stock left is the rest. */
  lemma ExactSellOut(reqs: Requests, w: World, actions: seq<Action>, w': World, p: Uuid, q: nat)
    requires Initial(reqs, w) && Run(reqs, w, actions, w') && Healthy(w.db)
    requires p in w.db.products && q > 0 && AllBuyers(reqs, w.db, p, q)
    requires forall t :: t in reqs ==> t in w'.txs && !Unfinished(w'.txs[t])
    ensures var stock := w.db.products[p].stock;
            var answered := |set t | t in reqs && Answered(w', t)|;
            var won := |set t | t in reqs && Won(w', t)|;
            && won == Min(answered, stock / q)
            && p in w'.db.products && w'.db.products[p].stock == stock - q * won
  {
    RunsAreSerial(reqs, w, actions, w');
    forall i | 0 <= i < |w'.log| && w'.log[i].Ended? ensures w'.log[i].t in reqs {
      assert AnswerAt(reqs, w.db, w', i);
    }
    HistorySells(reqs, w.db, w'.log, p, q);
    assert ProductOk(w.db.products[p]);
    ServedExactly(w.db.products[p].stock, q, |EndedSet(w'.log)|);
    WinnersAreAnswers(reqs, w.db, w');
  }
}
