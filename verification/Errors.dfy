/** The intake of errors: each request saves its row first and then counts, while other requests run in between. */
module Errors {
  import opened Common
  import opened CounterRuns

  type Request = nat

  /** What the requests have done to the stores so far; `saved` holds the requests between their row and their count. */
  datatype Intake = Intake(ops: seq<Op>, saved: map<Request, nat>)

  /** The pieces of `create` between its awaits. An insert that fails ends the request before any count. */
  datatype Move =
    | SaveRow(req: Request, service: Service, createdAt: Time, insertOk: bool)
    | CountRow(req: Request, at: Time, wall: Time, executed: bool)
    | RedisLost

  predicate CanMove(k: Intake, m: Move) {
    match m
    case SaveRow(req, _, _, _) => req !in k.saved
    case CountRow(req, _, _, _) => req in k.saved && k.saved[req] < |k.ops| && k.ops[k.saved[req]].Save?
    case RedisLost => true
  }

  function AfterMove(k: Intake, m: Move): Intake
    requires CanMove(k, m)
  {
    match m
    case SaveRow(req, service, createdAt, insertOk) =>
      if insertOk then Intake(k.ops + [Save(service, createdAt)], k.saved[req := |k.ops|]) else k
    case CountRow(req, at, wall, executed) =>
      var row := k.saved[req];
      Intake(k.ops + [CounterRuns.Record(row, k.ops[row].service, at, wall, executed)], k.saved - {req})
    case RedisLost => k.(ops := k.ops + [Crash])
  }

  /** The stores after some moves; a move that is not possible does nothing. */
  function After(moves: seq<Move>): Intake {
    if moves == [] then Intake([], map[])
    else
      var before := After(moves[..|moves| - 1]);
      if CanMove(before, moves[|moves| - 1]) then AfterMove(before, moves[|moves| - 1]) else before
  }

  /** Rows wait for at most one count each, and none of them has had it. */
  ghost predicate Orderly(ops: seq<Op>, saved: map<Request, nat>) {
    && ChecksFollowRows(ops)
    && (forall r :: r in saved ==> saved[r] < |ops| && ops[saved[r]].Save?)
    && (forall r, u :: r in saved && u in saved && saved[r] == saved[u] ==> r == u)
    && (forall r, i :: r in saved && Checks(ops, i) ==> ops[i].row != saved[r])
  }

  lemma OtherKeepsOrder(ops: seq<Op>, op: Op)
    requires ChecksFollowRows(ops) && !op.Record?
    ensures ChecksFollowRows(ops + [op])
    ensures forall i :: Checks(ops + [op], i) ==> Checks(ops, i) && (ops + [op])[i] == ops[i]
  {
    var all := ops + [op];
    forall i | Checks(all, i) ensures Checks(ops, i) && all[i] == ops[i] {
    }
    forall i | Checks(all, i) ensures all[i].row < i && all[all[i].row].Save? && all[all[i].row].service == all[i].service {
      assert Checks(ops, i);
    }
  }

  lemma CountKeepsOrder(ops: seq<Op>, saved: map<Request, nat>, req: Request, op: Op)
    requires Orderly(ops, saved) && req in saved && op.Record? && op.row == saved[req] && op.service == ops[saved[req]].service
    ensures Orderly(ops + [op], saved - {req})
  {
    var all := ops + [op];
    forall i | Checks(all, i) ensures i < |ops| ==> Checks(ops, i) && all[i] == ops[i] {
    }
    forall i | Checks(all, i) ensures all[i].row < i && all[all[i].row].Save? && all[all[i].row].service == all[i].service {
      assert i < |ops| ==> Checks(ops, i);
    }
    forall i, j | i < j && Checks(all, i) && Checks(all, j) ensures all[i].row != all[j].row {
      assert Checks(ops, i) && (j < |ops| ==> Checks(ops, j));
    }
  }

  lemma MoveKeepsOrder(k: Intake, m: Move)
    requires Orderly(k.ops, k.saved) && CanMove(k, m)
    ensures Orderly(AfterMove(k, m).ops, AfterMove(k, m).saved)
  {
    match m
    case SaveRow(req, service, createdAt, insertOk) =>
      OtherKeepsOrder(k.ops, Save(service, createdAt));
      assert forall i :: Checks(k.ops, i) ==> k.ops[i].row < |k.ops|;
    case CountRow(req, at, wall, executed) =>
      var row := k.saved[req];
      CountKeepsOrder(k.ops, k.saved, req, CounterRuns.Record(row, k.ops[row].service, at, wall, executed));
    case RedisLost => OtherKeepsOrder(k.ops, Crash);
  }

  /**
   However the requests interleave and whatever fails, the stores see every count after its own row and no row counted
   twice: the order the counting queries rely on.
   */
  lemma {:induction false} RequestsKeepOrder(moves: seq<Move>)
    ensures Orderly(After(moves).ops, After(moves).saved)
    ensures ChecksFollowRows(After(moves).ops)
  {
    if moves != [] {
      var last := |moves| - 1;
      RequestsKeepOrder(moves[..last]);
      if CanMove(After(moves[..last]), moves[last]) {
        MoveKeepsOrder(After(moves[..last]), moves[last]);
      }
    }
  }

  /** Because the row comes first, a count of the database sees the row of its own request, unless its time is too old. */
  lemma OwnRowIsCounted(ops: seq<Op>, i: nat, window: nat)
    requires ChecksFollowRows(ops) && Checks(ops, i) && ops[ops[i].row].createdAt > ops[i].at - window
    ensures DbCount(ops[..i], ops[i].service, window, ops[i].at) >= 1
  {
    var found := SavedInWindow(ops[..i], ops[i].service, window, ops[i].at);
    QueryCountsSaved(ops[..i], ops[i].service, window, ops[i].at);
    SubsetSize({ops[i].row}, found);
  }

  class ErrorsController {
    var ops: seq<Op>
    var saved: map<Request, nat>

    ghost function Seen(): Intake
      reads this
    {
      Intake(ops, saved)
    }

    constructor ()
      ensures Seen() == Intake([], map[])
    {
      ops, saved := [], map[];
    }

    method SaveFirst(req: Request, service: Service, createdAt: Time, insertOk: bool) returns (thrown: bool)
      requires req !in saved
      modifies this
      ensures thrown <==> !insertOk
      ensures Seen() == AfterMove(old(Seen()), SaveRow(req, service, createdAt, insertOk))
    {
      if !insertOk {
        return true;
      }
      ops, saved := ops + [Save(service, createdAt)], saved[req := |ops|];
      thrown := false;
    }

    method ThenCount(req: Request, at: Time, wall: Time, executed: bool)
      requires CanMove(Seen(), CountRow(req, at, wall, executed))
      modifies this
      ensures Seen() == AfterMove(old(Seen()), CountRow(req, at, wall, executed))
    {
      var row := saved[req];
      ops := ops + [CounterRuns.Record(row, ops[row].service, at, wall, executed)];
      saved := saved - {req};
    }

    /** One request that nothing interrupts. */
    method Create(req: Request, service: Service, createdAt: Time, insertOk: bool, at: Time, wall: Time, executed: bool)
      returns (thrown: bool)
      requires req !in saved
      modifies this
      ensures thrown <==> !insertOk
      ensures ops == old(ops) + if insertOk
              then [Save(service, createdAt), CounterRuns.Record(|old(ops)|, service, at, wall, executed)] else []
      ensures saved == old(saved)
    {
      thrown := SaveFirst(req, service, createdAt, insertOk);
      if !thrown {
        ThenCount(req, at, wall, executed);
        assert saved == old(saved);
      }
    }
  }
}
