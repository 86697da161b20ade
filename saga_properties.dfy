/**
 * What the saga promises, read off its trace: which commands it sends, what
 * it saves, which locks it takes and releases, and when it emits the event.
 * Each property is stated on the functions of `Saga`, which the handler's
 * methods are proved to follow.
 */
module SagaProperties {
  import opened Wrappers
  import opened Domain
  import opened Messaging
  import opened Saga
  import LockKeys

  // ----- projections of a trace -----

  /** The effects of `es` of one kind, in the order they happen. */
  function Only(p: Effect -> bool, es: seq<Effect>): seq<Effect>
  {
    if es == [] then []
    else
      var rest := Only(p, es[..|es| - 1]);
      var last := es[|es| - 1];
      rest + (if p(last) then [last] else [])
  }

  predicate IsMake(e: Effect) { e.MakeDispatched? }
  predicate IsRemove(e: Effect) { e.RemoveDispatched? }
  predicate IsLock(e: Effect) { e.LockAcquired? || e.LockReleased? }
  predicate IsSave(e: Effect) { e.Saved? }
  predicate IsEvent(e: Effect) { e.EventDispatched? }

  lemma {:induction false} OnlyAppend(p: Effect -> bool, a: seq<Effect>, b: seq<Effect>)
    ensures Only(p, a + b) == Only(p, a) + Only(p, b)
    decreases |b|
  {
    if b == [] {
      assert a + b == a;
    } else {
      var b' := b[..|b| - 1];
      assert (a + b)[..|a + b| - 1] == a + b';
      assert (a + b)[|a + b| - 1] == b[|b| - 1];
      OnlyAppend(p, a, b');
    }
  }

  lemma OnlySingle(p: Effect -> bool, e: Effect)
    ensures Only(p, [e]) == if p(e) then [e] else []
  {
    assert [e][..0] == [];
  }

  /** `n` copies of `s`, one after the other. */
  function Repeat(s: seq<Effect>, n: nat): seq<Effect>
  {
    if n == 0 then [] else Repeat(s, n - 1) + s
  }

  // ----- the per-row pieces -----

  /** One Make command per row, in row order, each carrying the row's warehouse, item and qty. */
  function MakeEffects(rows: seq<ItemWarehouse>): (r: seq<Effect>)
    ensures |r| == |rows|
    ensures forall i :: 0 <= i < |rows| ==>
      r[i] == MakeDispatched(MakeItemReservationInWarehouseCommand(rows[i].id, rows[i].itemId, rows[i].qty))
  {
    if rows == [] then [] else MakeEffects(rows[..|rows| - 1]) + [MakeDispatched(MakeCommand(rows[|rows| - 1]))]
  }

  /** How many of the rows' Make commands throw. */
  function Failures(env: Env, rows: seq<ItemWarehouse>): (n: nat)
    ensures n <= |rows|
  {
    if rows == [] then 0
    else Failures(env, rows[..|rows| - 1]) + (if env.makeFails(MakeCommand(rows[|rows| - 1])) then 1 else 0)
  }

  /** The quantity of the rows whose Make command does not throw. */
  function CommittedQty(env: Env, rows: seq<ItemWarehouse>): int
  {
    if rows == [] then 0
    else
      var last := rows[|rows| - 1];
      CommittedQty(env, rows[..|rows| - 1]) + (if env.makeFails(MakeCommand(last)) then 0 else last.qty)
  }

  lemma {:induction false} RemovesShape(rows: seq<ItemWarehouse>)
    ensures |Removes(rows)| == |rows|
    ensures forall i :: 0 <= i < |rows| ==>
      Removes(rows)[i] == RemoveDispatched(RemoveReservationFromWarehouseCommand(rows[i].id, rows[i].itemId))
  {
    if rows != [] {
      RemovesShape(rows[..|rows| - 1]);
    }
  }

  /** The lock cycle takes and releases each row's lock in turn: acquire, then release, row by row. */
  lemma {:induction false} LockCycleShape(rows: seq<ItemWarehouse>)
    ensures |LockCycle(rows)| == 2 * |rows|
    ensures forall i :: 0 <= i < |rows| ==>
      LockCycle(rows)[2 * i] == LockAcquired(LockKeys.KeyOf(rows[i]), LockTtl)
      && LockCycle(rows)[2 * i + 1] == LockReleased(LockKeys.KeyOf(rows[i]))
  {
    if rows != [] {
      LockCycleShape(rows[..|rows| - 1]);
    }
  }

  lemma {:induction false} OnlyRemoves(p: Effect -> bool, keep: bool, rows: seq<ItemWarehouse>)
    requires forall c :: p(RemoveDispatched(c)) == keep
    ensures Only(p, Removes(rows)) == if keep then Removes(rows) else []
  {
    if rows != [] {
      var init := rows[..|rows| - 1];
      var e := RemoveDispatched(RemoveCommand(rows[|rows| - 1]));
      OnlyRemoves(p, keep, init);
      OnlyAppend(p, Removes(init), [e]);
      OnlySingle(p, e);
    }
  }

  lemma {:induction false} OnlyLockCycle(p: Effect -> bool, keep: bool, rows: seq<ItemWarehouse>)
    requires forall k, t :: p(LockAcquired(k, t)) == keep
    requires forall k :: p(LockReleased(k)) == keep
    ensures Only(p, LockCycle(rows)) == if keep then LockCycle(rows) else []
  {
    if rows != [] {
      var init := rows[..|rows| - 1];
      var pair := LockPair(rows[|rows| - 1]);
      OnlyLockCycle(p, keep, init);
      OnlyAppend(p, LockCycle(init), pair);
      OnlyAppend(p, [pair[0]], [pair[1]]);
      assert pair == [pair[0]] + [pair[1]];
      OnlySingle(p, pair[0]);
      OnlySingle(p, pair[1]);
    }
  }

  lemma OnlyRevert(p: Effect -> bool, order: Order, rows: seq<ItemWarehouse>, consumed: bool)
    ensures Only(p, Revert(order, rows, consumed))
        == Only(p, [ReservationFailed(order.id)]) + Only(p, Removes(rows)) + Only(p, TraverseLocks(rows, consumed))
  {
    var head := [ReservationFailed(order.id)];
    OnlyAppend(p, head, Removes(rows));
    OnlyAppend(p, head + Removes(rows), TraverseLocks(rows, consumed));
  }

  lemma {:induction false} OnlyDispatch(p: Effect -> bool, env: Env, order: Order, rows: seq<ItemWarehouse>, row: ItemWarehouse, q: Progress)
    ensures var make := MakeCommand(row);
      Only(p, Dispatch(env, order, rows, row, q).effects)
        == Only(p, q.effects) + Only(p, [MakeDispatched(make)])
           + (if env.makeFails(make) then Only(p, Revert(order, rows, q.consumed)) else [])
  {
    var make := MakeCommand(row);
    OnlyAppend(p, q.effects, [MakeDispatched(make)]);
    if env.makeFails(make) {
      OnlyAppend(p, q.effects + [MakeDispatched(make)], Revert(order, rows, q.consumed));
    }
  }

  lemma PrefixStep<T>(rows: seq<T>, k: nat)
    requires 0 < k <= |rows|
    ensures rows[..k][..k - 1] == rows[..k - 1]
    ensures rows[..k][k - 1] == rows[k - 1]
  {
  }

  // ----- the inner loop -----

  /** `reservedQty` is the quantity of the rows whose command went through; the generator has run iff one threw. */
  lemma {:induction false} CommitReserved(env: Env, order: Order, rows: seq<ItemWarehouse>, k: nat)
    requires k <= |rows|
    ensures Commit(env, order, rows, k).reserved == CommittedQty(env, rows[..k])
    ensures Commit(env, order, rows, k).consumed <==> Failures(env, rows[..k]) > 0
  {
    if k > 0 {
      CommitReserved(env, order, rows, k - 1);
      PrefixStep(rows, k);
    }
  }

  /** A revert sends no Make command. */
  lemma RevertMakes(order: Order, rows: seq<ItemWarehouse>, consumed: bool)
    ensures Only(IsMake, Revert(order, rows, consumed)) == []
  {
    OnlyRevert(IsMake, order, rows, consumed);
    OnlySingle(IsMake, ReservationFailed(order.id));
    OnlyRemoves(IsMake, false, rows);
    OnlyLockCycle(IsMake, false, rows);
  }

  /** A revert removes every chosen row. */
  lemma RevertRemoves(order: Order, rows: seq<ItemWarehouse>, consumed: bool)
    ensures Only(IsRemove, Revert(order, rows, consumed)) == Removes(rows)
  {
    OnlyRevert(IsRemove, order, rows, consumed);
    OnlySingle(IsRemove, ReservationFailed(order.id));
    OnlyRemoves(IsRemove, true, rows);
    OnlyLockCycle(IsRemove, false, rows);
  }

  /** A revert runs the lock cycle unless the generator has already run. */
  lemma RevertLocks(order: Order, rows: seq<ItemWarehouse>, consumed: bool)
    ensures Only(IsLock, Revert(order, rows, consumed)) == TraverseLocks(rows, consumed)
  {
    OnlyRevert(IsLock, order, rows, consumed);
    OnlySingle(IsLock, ReservationFailed(order.id));
    OnlyRemoves(IsLock, false, rows);
    OnlyLockCycle(IsLock, true, rows);
  }

  /** A revert saves nothing and emits no event. */
  lemma RevertQuiet(order: Order, rows: seq<ItemWarehouse>, consumed: bool)
    ensures Only(IsSave, Revert(order, rows, consumed)) == []
    ensures Only(IsEvent, Revert(order, rows, consumed)) == []
  {
    OnlyRevert(IsSave, order, rows, consumed);
    OnlySingle(IsSave, ReservationFailed(order.id));
    OnlyRemoves(IsSave, false, rows);
    OnlyLockCycle(IsSave, false, rows);
    OnlyRevert(IsEvent, order, rows, consumed);
    OnlySingle(IsEvent, ReservationFailed(order.id));
    OnlyRemoves(IsEvent, false, rows);
    OnlyLockCycle(IsEvent, false, rows);
  }

  lemma {:induction false} DispatchMakes(env: Env, order: Order, rows: seq<ItemWarehouse>, row: ItemWarehouse, q: Progress)
    ensures Only(IsMake, Dispatch(env, order, rows, row, q).effects)
        == Only(IsMake, q.effects) + [MakeDispatched(MakeCommand(row))]
  {
    OnlyDispatch(IsMake, env, order, rows, row, q);
    OnlySingle(IsMake, MakeDispatched(MakeCommand(row)));
    RevertMakes(order, rows, q.consumed);
  }

  lemma {:induction false} DispatchRemoves(env: Env, order: Order, rows: seq<ItemWarehouse>, row: ItemWarehouse, q: Progress)
    ensures Only(IsRemove, Dispatch(env, order, rows, row, q).effects)
        == Only(IsRemove, q.effects) + (if env.makeFails(MakeCommand(row)) then Removes(rows) else [])
  {
    OnlyDispatch(IsRemove, env, order, rows, row, q);
    OnlySingle(IsRemove, MakeDispatched(MakeCommand(row)));
    RevertRemoves(order, rows, q.consumed);
  }

  lemma {:induction false} DispatchLocks(env: Env, order: Order, rows: seq<ItemWarehouse>, row: ItemWarehouse, q: Progress)
    ensures Only(IsLock, Dispatch(env, order, rows, row, q).effects)
        == Only(IsLock, q.effects) + (if env.makeFails(MakeCommand(row)) then TraverseLocks(rows, q.consumed) else [])
  {
    var make := MakeDispatched(MakeCommand(row));
    OnlySingle(IsLock, make);
    OnlyAppend(IsLock, q.effects, [make]);
    if env.makeFails(MakeCommand(row)) {
      var revert := Revert(order, rows, q.consumed);
      OnlyAppend(IsLock, q.effects + [make], revert);
      RevertLocks(order, rows, q.consumed);
    }
  }

  lemma {:induction false} DispatchQuiet(env: Env, order: Order, rows: seq<ItemWarehouse>, row: ItemWarehouse, q: Progress)
    ensures Only(IsSave, Dispatch(env, order, rows, row, q).effects) == Only(IsSave, q.effects)
    ensures Only(IsEvent, Dispatch(env, order, rows, row, q).effects) == Only(IsEvent, q.effects)
  {
    OnlyDispatch(IsSave, env, order, rows, row, q);
    OnlyDispatch(IsEvent, env, order, rows, row, q);
    OnlySingle(IsSave, MakeDispatched(MakeCommand(row)));
    OnlySingle(IsEvent, MakeDispatched(MakeCommand(row)));
    RevertQuiet(order, rows, q.consumed);
  }

  /** One Make command per row, in row order, whatever the earlier commands did. */
  lemma {:induction false} CommitMakes(env: Env, order: Order, rows: seq<ItemWarehouse>, k: nat)
    requires k <= |rows|
    ensures Only(IsMake, Commit(env, order, rows, k).effects) == MakeEffects(rows[..k])
  {
    if k > 0 {
      CommitMakes(env, order, rows, k - 1);
      PrefixStep(rows, k);
      DispatchMakes(env, order, rows, rows[k - 1], Commit(env, order, rows, k - 1));
    }
  }

  /** Each command that throws removes every chosen row, not only the committed ones. */
  lemma {:induction false} CommitRemoves(env: Env, order: Order, rows: seq<ItemWarehouse>, k: nat)
    requires k <= |rows|
    ensures Only(IsRemove, Commit(env, order, rows, k).effects) == Repeat(Removes(rows), Failures(env, rows[..k]))
  {
    if k > 0 {
      CommitRemoves(env, order, rows, k - 1);
      PrefixStep(rows, k);
      if env.makeFails(MakeCommand(rows[k - 1])) {
        CommitRemovesFail(env, order, rows, k);
      } else {
        CommitRemovesOk(env, order, rows, k);
      }
    }
  }

  lemma {:induction false} CommitRemovesFail(env: Env, order: Order, rows: seq<ItemWarehouse>, k: nat)
    requires 0 < k <= |rows|
    requires env.makeFails(MakeCommand(rows[k - 1]))
    requires rows[..k][..k - 1] == rows[..k - 1] && rows[..k][k - 1] == rows[k - 1]
    requires Only(IsRemove, Commit(env, order, rows, k - 1).effects) == Repeat(Removes(rows), Failures(env, rows[..k - 1]))
    ensures Only(IsRemove, Commit(env, order, rows, k).effects) == Repeat(Removes(rows), Failures(env, rows[..k]))
  {
    DispatchRemoves(env, order, rows, rows[k - 1], Commit(env, order, rows, k - 1));
    assert Failures(env, rows[..k]) == Failures(env, rows[..k - 1]) + 1;
  }

  lemma {:induction false} CommitRemovesOk(env: Env, order: Order, rows: seq<ItemWarehouse>, k: nat)
    requires 0 < k <= |rows|
    requires !env.makeFails(MakeCommand(rows[k - 1]))
    requires rows[..k][..k - 1] == rows[..k - 1] && rows[..k][k - 1] == rows[k - 1]
    requires Only(IsRemove, Commit(env, order, rows, k - 1).effects) == Repeat(Removes(rows), Failures(env, rows[..k - 1]))
    ensures Only(IsRemove, Commit(env, order, rows, k).effects) == Repeat(Removes(rows), Failures(env, rows[..k]))
  {
    var q := Commit(env, order, rows, k - 1);
    DispatchRemoves(env, order, rows, rows[k - 1], q);
    assert Only(IsRemove, q.effects) + [] == Only(IsRemove, q.effects);
  }

  /** The locks are taken and released by the first revert, and by nothing else in the loop. */
  lemma {:induction false} CommitLocks(env: Env, order: Order, rows: seq<ItemWarehouse>, k: nat)
    requires k <= |rows|
    ensures Only(IsLock, Commit(env, order, rows, k).effects)
        == if Failures(env, rows[..k]) > 0 then LockCycle(rows) else []
  {
    if k > 0 {
      CommitLocks(env, order, rows, k - 1);
      CommitReserved(env, order, rows, k - 1);
      PrefixStep(rows, k);
      DispatchLocks(env, order, rows, rows[k - 1], Commit(env, order, rows, k - 1));
    }
  }

  /** The inner loop saves nothing and emits no event. */
  lemma {:induction false} CommitQuiet(env: Env, order: Order, rows: seq<ItemWarehouse>, k: nat)
    requires k <= |rows|
    ensures Only(IsSave, Commit(env, order, rows, k).effects) == []
    ensures Only(IsEvent, Commit(env, order, rows, k).effects) == []
  {
    if k > 0 {
      CommitQuiet(env, order, rows, k - 1);
      DispatchQuiet(env, order, rows, rows[k - 1], Commit(env, order, rows, k - 1));
    }
  }

  lemma {:induction false} CommitFirst(env: Env, order: Order, rows: seq<ItemWarehouse>, k: nat)
    requires 0 < k <= |rows|
    ensures |Commit(env, order, rows, k).effects| > 0
    ensures Commit(env, order, rows, k).effects[0] == MakeDispatched(MakeCommand(rows[0]))
  {
    if k > 1 {
      CommitFirst(env, order, rows, k - 1);
    }
  }

  /** While no command throws, the loop has sent exactly one Make command per row and nothing else. */
  lemma {:induction false} CommitClean(env: Env, order: Order, rows: seq<ItemWarehouse>, k: nat)
    requires k <= |rows|
    requires Failures(env, rows[..k]) == 0
    ensures Commit(env, order, rows, k).effects == MakeEffects(rows[..k])
    ensures !Commit(env, order, rows, k).consumed
  {
    if k > 0 {
      PrefixStep(rows, k);
      CommitClean(env, order, rows, k - 1);
    }
  }

  // ----- one item -----

  lemma AllRows(rows: seq<ItemWarehouse>)
    ensures rows[..|rows|] == rows
  {
  }

  /** The item passes exactly when the committed quantity covers it; any surplus is accepted. */
  lemma {:induction false} ItemPassed(env: Env, order: Order, pos: nat, item: Item, rows: seq<ItemWarehouse>)
    requires pos < |order.items| && ReserveItems(env, order, pos).Reserving?
    ensures ReserveItem(env, order, pos, item, rows).passed <==> item.qty <= CommittedQty(env, rows)
  {
    CommitReserved(env, order, rows, |rows|);
    AllRows(rows);
  }

  /** The two ways an item ends, in terms of the inner loop. */
  lemma {:induction false} ShortPath(env: Env, order: Order, pos: nat, item: Item, rows: seq<ItemWarehouse>)
    requires pos < |order.items| && ReserveItems(env, order, pos).Reserving?
    requires item.qty > CommittedQty(env, rows)
    ensures var c := Commit(env, order, rows, |rows|);
      ReserveItem(env, order, pos, item, rows) == ItemRun(false, c.effects + Revert(order, rows, c.consumed))
  {
    ItemPassed(env, order, pos, item, rows);
  }

  lemma {:induction false} PassPath(env: Env, order: Order, pos: nat, item: Item, rows: seq<ItemWarehouse>)
    requires pos < |order.items| && ReserveItems(env, order, pos).Reserving?
    requires item.qty <= CommittedQty(env, rows)
    ensures var c := Commit(env, order, rows, |rows|);
      ReserveItem(env, order, pos, item, rows)
        == ItemRun(true, c.effects + [Saved(Reservation(env.clock(pos), order, item, rows))] + TraverseLocks(rows, c.consumed))
  {
    ItemPassed(env, order, pos, item, rows);
  }

  /** Every row gets one Make command, in row order, on both paths. */
  lemma {:induction false} ItemMakes(env: Env, order: Order, pos: nat, item: Item, rows: seq<ItemWarehouse>)
    requires pos < |order.items| && ReserveItems(env, order, pos).Reserving?
    ensures Only(IsMake, ReserveItem(env, order, pos, item, rows).effects) == MakeEffects(rows)
  {
    var c := Commit(env, order, rows, |rows|);
    CommitMakes(env, order, rows, |rows|);
    AllRows(rows);
    if item.qty > CommittedQty(env, rows) {
      ShortPath(env, order, pos, item, rows);
      OnlyAppend(IsMake, c.effects, Revert(order, rows, c.consumed));
      RevertMakes(order, rows, c.consumed);
    } else {
      PassPath(env, order, pos, item, rows);
      var saved := Saved(Reservation(env.clock(pos), order, item, rows));
      OnlyAppend(IsMake, c.effects, [saved]);
      OnlyAppend(IsMake, c.effects + [saved], TraverseLocks(rows, c.consumed));
      OnlySingle(IsMake, saved);
      OnlyLockCycle(IsMake, false, rows);
    }
  }

  /** A short item removes every chosen row once more than the number of thrown commands. */
  lemma {:induction false} ItemRemovesShort(env: Env, order: Order, pos: nat, item: Item, rows: seq<ItemWarehouse>)
    requires pos < |order.items| && ReserveItems(env, order, pos).Reserving?
    requires item.qty > CommittedQty(env, rows)
    ensures Only(IsRemove, ReserveItem(env, order, pos, item, rows).effects)
        == Repeat(Removes(rows), Failures(env, rows) + 1)
  {
    var c := Commit(env, order, rows, |rows|);
    ItemPassed(env, order, pos, item, rows);
    LoopRemoves(env, order, rows);
    ShortRemoves(order, rows, c, Failures(env, rows));
  }

  /** A passing item removes every chosen row once per thrown command, and nothing else. */
  lemma {:induction false} ItemRemovesPass(env: Env, order: Order, pos: nat, item: Item, rows: seq<ItemWarehouse>)
    requires pos < |order.items| && ReserveItems(env, order, pos).Reserving?
    requires item.qty <= CommittedQty(env, rows)
    ensures Only(IsRemove, ReserveItem(env, order, pos, item, rows).effects)
        == Repeat(Removes(rows), Failures(env, rows))
  {
    var c := Commit(env, order, rows, |rows|);
    ItemPassed(env, order, pos, item, rows);
    LoopRemoves(env, order, rows);
    PassRemoves(order, rows, c, Failures(env, rows), Saved(Reservation(env.clock(pos), order, item, rows)));
  }

  lemma {:induction false} LoopRemoves(env: Env, order: Order, rows: seq<ItemWarehouse>)
    ensures Only(IsRemove, Commit(env, order, rows, |rows|).effects) == Repeat(Removes(rows), Failures(env, rows))
  {
    CommitRemoves(env, order, rows, |rows|);
    AllRows(rows);
  }

  lemma ShortRemoves(order: Order, rows: seq<ItemWarehouse>, c: Progress, n: nat)
    requires Only(IsRemove, c.effects) == Repeat(Removes(rows), n)
    ensures Only(IsRemove, c.effects + Revert(order, rows, c.consumed)) == Repeat(Removes(rows), n + 1)
  {
    OnlyAppend(IsRemove, c.effects, Revert(order, rows, c.consumed));
    RevertRemoves(order, rows, c.consumed);
  }

  lemma PassRemoves(order: Order, rows: seq<ItemWarehouse>, c: Progress, n: nat, saved: Effect)
    requires saved.Saved?
    requires Only(IsRemove, c.effects) == Repeat(Removes(rows), n)
    ensures Only(IsRemove, c.effects + [saved] + TraverseLocks(rows, c.consumed)) == Repeat(Removes(rows), n)
  {
    var locks := TraverseLocks(rows, c.consumed);
    OnlyAppend(IsRemove, c.effects, [saved]);
    OnlyAppend(IsRemove, c.effects + [saved], locks);
    OnlySingle(IsRemove, saved);
    OnlyLockCycle(IsRemove, false, rows);
    assert Only(IsRemove, locks) == [];
    assert Only(IsRemove, c.effects) + [] + [] == Only(IsRemove, c.effects);
  }

  /** Whatever happens, the item's locks are taken and released exactly once: one run of the generator. */
  lemma {:induction false} ItemLocks(env: Env, order: Order, pos: nat, item: Item, rows: seq<ItemWarehouse>)
    requires pos < |order.items| && ReserveItems(env, order, pos).Reserving?
    ensures Only(IsLock, ReserveItem(env, order, pos, item, rows).effects) == LockCycle(rows)
  {
    var c := Commit(env, order, rows, |rows|);
    CommitLocks(env, order, rows, |rows|);
    CommitReserved(env, order, rows, |rows|);
    AllRows(rows);
    OnlyLockCycle(IsLock, true, rows);
    if item.qty > CommittedQty(env, rows) {
      ShortPath(env, order, pos, item, rows);
      OnlyAppend(IsLock, c.effects, Revert(order, rows, c.consumed));
      RevertLocks(order, rows, c.consumed);
    } else {
      PassPath(env, order, pos, item, rows);
      var saved := Saved(Reservation(env.clock(pos), order, item, rows));
      OnlyAppend(IsLock, c.effects, [saved]);
      OnlyAppend(IsLock, c.effects + [saved], TraverseLocks(rows, c.consumed));
      OnlySingle(IsLock, saved);
    }
  }

  /** A passing item saves one reservation holding the item and its rows unchanged; a failing one saves nothing. No event either way. */
  lemma {:induction false} ItemSaves(env: Env, order: Order, pos: nat, item: Item, rows: seq<ItemWarehouse>)
    requires pos < |order.items| && ReserveItems(env, order, pos).Reserving?
    ensures var r := ReserveItem(env, order, pos, item, rows);
      Only(IsSave, r.effects) == if r.passed then [Saved(Reservation(env.clock(pos), order, item, rows))] else []
    ensures Only(IsEvent, ReserveItem(env, order, pos, item, rows).effects) == []
  {
    var c := Commit(env, order, rows, |rows|);
    CommitQuiet(env, order, rows, |rows|);
    if item.qty > CommittedQty(env, rows) {
      ShortPath(env, order, pos, item, rows);
      OnlyAppend(IsSave, c.effects, Revert(order, rows, c.consumed));
      OnlyAppend(IsEvent, c.effects, Revert(order, rows, c.consumed));
      RevertQuiet(order, rows, c.consumed);
    } else {
      PassPath(env, order, pos, item, rows);
      var saved := Saved(Reservation(env.clock(pos), order, item, rows));
      OnlyAppend(IsSave, c.effects, [saved]);
      OnlyAppend(IsSave, c.effects + [saved], TraverseLocks(rows, c.consumed));
      OnlyAppend(IsEvent, c.effects, [saved]);
      OnlyAppend(IsEvent, c.effects + [saved], TraverseLocks(rows, c.consumed));
      OnlySingle(IsSave, saved);
      OnlySingle(IsEvent, saved);
      OnlyLockCycle(IsSave, false, rows);
      OnlyLockCycle(IsEvent, false, rows);
    }
  }

  /** No lock is taken before the first Make command: the generator only runs later. */
  lemma {:induction false} ItemStartsWithMake(env: Env, order: Order, pos: nat, item: Item, rows: seq<ItemWarehouse>)
    requires pos < |order.items| && ReserveItems(env, order, pos).Reserving?
    requires |rows| > 0
    ensures var r := ReserveItem(env, order, pos, item, rows);
      |r.effects| > 0 && r.effects[0] == MakeDispatched(MakeCommand(rows[0]))
  {
    CommitFirst(env, order, rows, |rows|);
  }

  /**
   * When no command throws and the rows cover the item, the item's effects
   * are all the Make commands, then the save, then each lock taken and
   * released in row order.
   */
  lemma {:induction false} ItemHappyPath(env: Env, order: Order, pos: nat, item: Item, rows: seq<ItemWarehouse>)
    requires pos < |order.items| && ReserveItems(env, order, pos).Reserving?
    requires Failures(env, rows) == 0
    requires item.qty <= CommittedQty(env, rows)
    ensures ReserveItem(env, order, pos, item, rows)
        == ItemRun(true, MakeEffects(rows) + [Saved(Reservation(env.clock(pos), order, item, rows))] + LockCycle(rows))
  {
    AllRows(rows);
    CommitClean(env, order, rows, |rows|);
    CommitReserved(env, order, rows, |rows|);
  }

  // ----- one pass of the outer loop -----

  /** The rows the warehouse query gives for the item at position `j`, or the routing error. */
  function ChosenRows(env: Env, order: Order, j: nat): Result<seq<ItemWarehouse>, RoutingError>
    requires j < |order.items|
  {
    Handle(env.warehouseStamps(WarehouseQuery(order.items[j])))
  }

  /** A pass stops the saga on a routing error or a shortfall, and goes on exactly when the committed quantity covers the item. */
  lemma {:induction false} StepStop(env: Env, order: Order, j: nat)
    requires j < |order.items|
    requires ReserveItems(env, order, j).Reserving?
    ensures var item, chosen := order.items[j], ChosenRows(env, order, j);
      ItemStep(env, order, j).stop
        == if chosen.Err? then Some(Failed(Routing(chosen.error)))
           else if item.qty <= CommittedQty(env, chosen.value) then None
           else Some(Failed(RequiredQtyHasNotBeenReserved(item)))
  {
    var chosen := ChosenRows(env, order, j);
    if chosen.Ok? {
      ItemPassed(env, order, j, order.items[j], chosen.value);
    }
  }

  /** A pass that goes on saves exactly one reservation, for its item and its rows; one that stops saves none. */
  lemma {:induction false} StepSaves(env: Env, order: Order, j: nat)
    requires j < |order.items|
    requires ReserveItems(env, order, j).Reserving?
    ensures var step, chosen := ItemStep(env, order, j), ChosenRows(env, order, j);
      Only(IsSave, step.effects)
        == if step.stop.None? then [Saved(Reservation(env.clock(j), order, order.items[j], chosen.value))] else []
    ensures Only(IsEvent, ItemStep(env, order, j).effects) == []
  {
    var item := order.items[j];
    var query := WarehouseQuery(item);
    var chosen := ChosenRows(env, order, j);
    OnlySingle(IsSave, WarehousesQueried(query));
    OnlySingle(IsEvent, WarehousesQueried(query));
    if chosen.Ok? {
      var r := ReserveItem(env, order, j, item, chosen.value);
      OnlyAppend(IsSave, [WarehousesQueried(query)], r.effects);
      OnlyAppend(IsEvent, [WarehousesQueried(query)], r.effects);
      ItemSaves(env, order, j, item, chosen.value);
    }
  }

  // ----- the outer loop -----

  /** The saved reservations of a trace are, in order, those of the first items of the order. */
  ghost predicate SavesFollowItems(env: Env, order: Order, saves: seq<Effect>)
  {
    |saves| <= |order.items|
    && forall i :: 0 <= i < |saves| ==>
      saves[i].Saved? && ChosenRows(env, order, i).Ok?
      && saves[i].reservation == Reservation(env.clock(i), order, order.items[i], ChosenRows(env, order, i).value)
  }

  /** What the outer loop has done is never undone: each pass only appends to the trace. */
  lemma {:induction false} SweepPrefix(env: Env, order: Order, j: nat, k: nat)
    requires j <= k <= |order.items|
    ensures ReserveItems(env, order, j).effects <= ReserveItems(env, order, k).effects
    decreases k - j
  {
    if j < k {
      SweepPrefix(env, order, j, k - 1);
      SweepGrows(env, order, k - 1);
      PrefixTrans(ReserveItems(env, order, j).effects, ReserveItems(env, order, k - 1).effects, ReserveItems(env, order, k).effects);
    }
  }

  lemma PrefixTrans(a: seq<Effect>, b: seq<Effect>, c: seq<Effect>)
    requires a <= b && b <= c
    ensures a <= c
  {
  }

  lemma {:induction false} SweepGrows(env: Env, order: Order, j: nat)
    requires j < |order.items|
    ensures ReserveItems(env, order, j).effects <= ReserveItems(env, order, j + 1).effects
  {
    var s := ReserveItems(env, order, j);
    if s.Reserving? {
      var step := ItemStep(env, order, j);
      assert ReserveItems(env, order, j + 1).effects == s.effects + step.effects;
    }
  }

  /**
   * After the first `j` passes, one reservation has been saved per item that
   * passed, in item order: all `j` of them while the loop goes on, fewer once
   * an item stopped it. No event has been emitted.
   */
  lemma {:induction false} SweepSaves(env: Env, order: Order, j: nat)
    requires j <= |order.items|
    ensures var s := ReserveItems(env, order, j);
      var saves := Only(IsSave, s.effects);
      SavesFollowItems(env, order, saves)
      && (s.Reserving? ==> |saves| == j)
      && (s.Stopped? ==> |saves| < j)
    ensures Only(IsEvent, ReserveItems(env, order, j).effects) == []
  {
    if j > 0 {
      SweepSaves(env, order, j - 1);
      if ReserveItems(env, order, j - 1).Reserving? {
        SweepSavesStep(env, order, j - 1);
      }
    }
  }

  lemma {:induction false} SweepSavesStep(env: Env, order: Order, j: nat)
    requires j < |order.items|
    requires ReserveItems(env, order, j).Reserving?
    requires SavesFollowItems(env, order, Only(IsSave, ReserveItems(env, order, j).effects))
    requires |Only(IsSave, ReserveItems(env, order, j).effects)| == j
    requires Only(IsEvent, ReserveItems(env, order, j).effects) == []
    ensures var s := ReserveItems(env, order, j + 1);
      var saves := Only(IsSave, s.effects);
      SavesFollowItems(env, order, saves)
      && (s.Reserving? ==> |saves| == j + 1)
      && (s.Stopped? ==> |saves| < j + 1)
    ensures Only(IsEvent, ReserveItems(env, order, j + 1).effects) == []
  {
    var prev := ReserveItems(env, order, j).effects;
    var step := ItemStep(env, order, j);
    var saves := Only(IsSave, prev);
    StepSaves(env, order, j);
    OnlyAppend(IsSave, prev, step.effects);
    OnlyAppend(IsEvent, prev, step.effects);
    assert ReserveItems(env, order, j + 1).effects == prev + step.effects;
    if step.stop.None? {
      SavesExtend(env, order, saves);
    } else {
      assert saves + [] == saves;
    }
  }

  lemma {:induction false} SavesExtend(env: Env, order: Order, saves: seq<Effect>)
    requires |saves| < |order.items|
    requires SavesFollowItems(env, order, saves)
    requires ChosenRows(env, order, |saves|).Ok?
    ensures var j := |saves|;
      SavesFollowItems(env, order, saves + [Saved(Reservation(env.clock(j), order, order.items[j], ChosenRows(env, order, j).value))])
  {
  }

  /** The loop only ever stops with a failure. */
  lemma {:induction false} SweepStopsFailed(env: Env, order: Order, j: nat)
    requires j <= |order.items|
    ensures ReserveItems(env, order, j).Stopped? ==> ReserveItems(env, order, j).outcome.Failed?
  {
    if j > 0 {
      SweepStopsFailed(env, order, j - 1);
      if ReserveItems(env, order, j - 1).Reserving? {
        StepStop(env, order, j - 1);
      }
    }
  }

  /** A loop that has stopped was stopped by one item: the last position at which it was still going. */
  lemma {:induction false} StoppedAt(env: Env, order: Order, j: nat)
    requires j <= |order.items|
    requires ReserveItems(env, order, j).Stopped?
    ensures exists m: nat :: m < j && ReserveItems(env, order, m).Reserving? && ReserveItems(env, order, m + 1).Stopped?
  {
    assert j > 0;
    if ReserveItems(env, order, j - 1).Stopped? {
      StoppedAt(env, order, j - 1);
    } else {
      var m: nat := j - 1;
      assert ReserveItems(env, order, m).Reserving? && ReserveItems(env, order, m + 1).Stopped?;
    }
  }

  /** When item `m` stops the loop, exactly the `m` items before it stay saved, and nothing after it adds a save. */
  lemma {:induction false} StoppedSaves(env: Env, order: Order, m: nat)
    requires m < |order.items|
    requires ReserveItems(env, order, m).Reserving? && ReserveItems(env, order, m + 1).Stopped?
    ensures |Only(IsSave, ReserveItems(env, order, |order.items|).effects)| == m
  {
    var s := ReserveItems(env, order, m);
    var step := ItemStep(env, order, m);
    SweepSaves(env, order, m);
    StepSaves(env, order, m);
    assert ReserveItems(env, order, m + 1).effects == s.effects + step.effects;
    OnlyAppend(IsSave, s.effects, step.effects);
    StoppedStays(env, order, m + 1, |order.items|);
  }

  // ----- the whole order -----

  /**
   * The saga completes exactly when one reservation was saved per item, in
   * item order; otherwise it fails, having saved one for each item before the
   * one that stopped it, and none of those is reverted.
   */
  lemma {:induction false} ReserveAllSaves(env: Env, order: Order)
    ensures var r := ReserveAll(env, order);
      var saves := Only(IsSave, r.effects);
      SavesFollowItems(env, order, saves)
      && (r.outcome == Completed <==> |saves| == |order.items|)
      && (r.outcome != Completed ==> r.outcome.Failed?)
    ensures ReserveAll(env, order).outcome != Completed ==>
      exists m: nat :: m < |order.items| && ReserveItems(env, order, m).Reserving? && ReserveItems(env, order, m + 1).Stopped?
    ensures forall m: nat ::
      m < |order.items| && ReserveItems(env, order, m).Reserving? && ReserveItems(env, order, m + 1).Stopped? ==>
        |Only(IsSave, ReserveAll(env, order).effects)| == m
  {
    var s := ReserveItems(env, order, |order.items|);
    var closing := [ProcessFinished(order.id), EventDispatched(ReservationHasBeenMadeEvent(order.id))];
    SweepSaves(env, order, |order.items|);
    SweepStopsFailed(env, order, |order.items|);
    forall m: nat | m < |order.items| && ReserveItems(env, order, m).Reserving? && ReserveItems(env, order, m + 1).Stopped?
      ensures |Only(IsSave, ReserveAll(env, order).effects)| == m
    {
      StoppedSaves(env, order, m);
      StoppedStays(env, order, m + 1, |order.items|);
    }
    if s.Stopped? {
      StoppedAt(env, order, |order.items|);
    }
    if s.Reserving? {
      OnlyAppend(IsSave, s.effects, closing);
      OnlyAppend(IsSave, [closing[0]], [closing[1]]);
      assert closing == [closing[0]] + [closing[1]];
      OnlySingle(IsSave, closing[0]);
      OnlySingle(IsSave, closing[1]);
      assert Only(IsSave, s.effects) + ([] + []) == Only(IsSave, s.effects);
    }
  }

  /** The completion event is emitted once, as the very last effect, and only when the saga completes. */
  lemma {:induction false} ReserveAllEvent(env: Env, order: Order)
    ensures var r := ReserveAll(env, order);
      var event := EventDispatched(ReservationHasBeenMadeEvent(order.id));
      Only(IsEvent, r.effects) == (if r.outcome == Completed then [event] else [])
      && (r.outcome == Completed ==> r.effects[|r.effects| - 1] == event)
  {
    var s := ReserveItems(env, order, |order.items|);
    var closing := [ProcessFinished(order.id), EventDispatched(ReservationHasBeenMadeEvent(order.id))];
    SweepSaves(env, order, |order.items|);
    SweepStopsFailed(env, order, |order.items|);
    if s.Reserving? {
      OnlyAppend(IsEvent, s.effects, closing);
      OnlyAppend(IsEvent, [closing[0]], [closing[1]]);
      assert closing == [closing[0]] + [closing[1]];
      OnlySingle(IsEvent, closing[0]);
      OnlySingle(IsEvent, closing[1]);
    }
  }

  /** What `__invoke` does once the order query has answered with an order. */
  lemma {:induction false} InvokeWithOrder(env: Env, order: Order)
    requires Handle(env.orderStamps) == Ok(Some(order))
    ensures Invoke(env) == Run(ReserveAll(env, order).outcome, [OrderQueried, ProcessStarted(order.id)] + ReserveAll(env, order).effects)
  {
  }

  /**
   * The saga reports that there is no order exactly when the query answers
   * null; it then only logs the warning: no warehouse query, no command, no
   * save, no event.
   */
  lemma {:induction false} InvokeNoOrder(env: Env)
    ensures Invoke(env).outcome == NoOrder <==> Handle(env.orderStamps) == Ok(None)
    ensures Invoke(env).outcome == NoOrder ==> Invoke(env).effects == [OrderQueried, NoOrderWarning]
  {
    var found := Handle(env.orderStamps);
    if found.Ok? && found.value.Some? {
      ReserveAllSaves(env, found.value.value);
    }
  }

  /** An order without items is reserved at once: two log lines and one event carrying the order id, nothing else. */
  lemma {:induction false} InvokeEmptyOrder(env: Env, order: Order)
    requires Handle(env.orderStamps) == Ok(Some(order))
    requires order.items == []
    ensures Invoke(env) == Run(Completed,
      [OrderQueried, ProcessStarted(order.id), ProcessFinished(order.id), EventDispatched(ReservationHasBeenMadeEvent(order.id))])
  {
    InvokeWithOrder(env, order);
  }

  /** The two opening effects carry no event. */
  lemma StartQuiet(orderId: int, effects: seq<Effect>)
    ensures Only(IsEvent, [OrderQueried, ProcessStarted(orderId)] + effects) == Only(IsEvent, effects)
  {
    var start := [OrderQueried, ProcessStarted(orderId)];
    OnlyAppend(IsEvent, start, effects);
    OnlyAppend(IsEvent, [OrderQueried], [ProcessStarted(orderId)]);
    assert start == [OrderQueried] + [ProcessStarted(orderId)];
    OnlySingle(IsEvent, OrderQueried);
    OnlySingle(IsEvent, ProcessStarted(orderId));
  }

  /** The saga emits the event once, last, exactly when it completes; on no order, a routing error or a shortfall it emits none. */
  lemma {:induction false} InvokeEvent(env: Env)
    ensures var r := Invoke(env);
      r.outcome == Completed ==>
        var found := Handle(env.orderStamps);
        found.Ok? && found.value.Some?
        && Only(IsEvent, r.effects) == [EventDispatched(ReservationHasBeenMadeEvent(found.value.value.id))]
        && r.effects[|r.effects| - 1] == EventDispatched(ReservationHasBeenMadeEvent(found.value.value.id))
    ensures Invoke(env).outcome != Completed ==> Only(IsEvent, Invoke(env).effects) == []
  {
    var found := Handle(env.orderStamps);
    if found.Err? {
      OnlySingle(IsEvent, OrderQueried);
    } else if found.value.None? {
      OnlyAppend(IsEvent, [OrderQueried], [NoOrderWarning]);
      OnlySingle(IsEvent, OrderQueried);
      OnlySingle(IsEvent, NoOrderWarning);
      assert [OrderQueried, NoOrderWarning] == [OrderQueried] + [NoOrderWarning];
    } else {
      var order := found.value.value;
      InvokeWithOrder(env, order);
      ReserveAllEvent(env, order);
      StartQuiet(order.id, ReserveAll(env, order).effects);
    }
  }

  /** The saga completes exactly when every item of the order got its reservation saved, in item order. */
  lemma {:induction false} InvokeCompleted(env: Env)
    ensures var r := Invoke(env);
      r.outcome == Completed <==>
        var found := Handle(env.orderStamps);
        found.Ok? && found.value.Some?
        && var order := found.value.value;
           var saves := Only(IsSave, r.effects);
           |saves| == |order.items| && SavesFollowItems(env, order, saves)
  {
    var found := Handle(env.orderStamps);
    if found.Ok? && found.value.Some? {
      var order := found.value.value;
      var r := ReserveAll(env, order);
      var start := [OrderQueried, ProcessStarted(order.id)];
      InvokeWithOrder(env, order);
      ReserveAllSaves(env, order);
      OnlyAppend(IsSave, start, r.effects);
      OnlyAppend(IsSave, [OrderQueried], [ProcessStarted(order.id)]);
      assert start == [OrderQueried] + [ProcessStarted(order.id)];
      OnlySingle(IsSave, OrderQueried);
      OnlySingle(IsSave, ProcessStarted(order.id));
      assert Only(IsSave, Invoke(env).effects) == Only(IsSave, r.effects);
    }
  }
}
