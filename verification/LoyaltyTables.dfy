/** The loyalty account and transaction tables, updated step by step inside a transaction. */
module LoyaltyTables {
  import opened Wrappers
  import opened Loyalty

  class LoyaltyTables {
    var accounts: map<UserId, Account>
    var log: seq<Tx>
    var orders: seq<OrderPoints>

    constructor ()
      ensures Snapshot() == Loyalty(map[], [], [])
    {
      accounts, log, orders := map[], [], [];
    }

    function Snapshot(): Loyalty
      reads this
    {
      Loyalty(accounts, log, orders)
    }

    method Restore(l: Loyalty)
      modifies this
      ensures Snapshot() == l
    {
      accounts, log, orders := l.accounts, l.log, l.orders;
    }

    method EnsureAccount(u: UserId) returns (account: Account)
      modifies this`accounts
      ensures Snapshot() == Ensured(old(Snapshot()), u)
      ensures account == AccountOf(old(Snapshot()), u)
    {
      if u !in accounts {
        accounts := accounts[u := Account(0, 0, 0, 0, 1)];
      }
      account := accounts[u];
    }

    /** Creates the order's loyalty columns and holds its points. */
    method PlaceOrderPoints(u: UserId, points: nat, earned: nat) returns (r: Result<(), Error>)
      modifies this
      ensures match PlaceOrder(old(Snapshot()), u, points, earned)
              case Success(m) => r.Success? && Snapshot() == m
              case Failure(e) => r == Failure(e)
    {
      orders := orders + [OrderPoints(u, points, earned, if points > 0 then Held else NoPoints)];
      r := ReservePoints(u, points);
    }

    /** Points a user may still spend. */
    function Spendable(u: UserId): int
      reads this
    {
      Max(0, AccountOf(Snapshot(), u).balance - AccountOf(Snapshot(), u).reserved)
    }

    /** Holds points if the user can spare them: what can be spent falls by exactly that much, for that user only. */
    method ReservePoints(u: UserId, points: nat) returns (r: Result<(), Error>)
      modifies this
      ensures r.Success? <==> points == 0 || points <= old(Spendable(u))
      ensures r.Success? ==> Spendable(u) == old(Spendable(u)) - points
      ensures forall v | v != u :: Spendable(v) == old(Spendable(v))
      ensures r.Success? ==> log == old(log) && AccountOf(Snapshot(), u).balance == AccountOf(old(Snapshot()), u).balance
      ensures match Reserve(old(Snapshot()), u, points)
              case Success(m) => r.Success? && Snapshot() == m
              case Failure(e) => r == Failure(e)
    {
      if points == 0 {
        return Success(());
      }
      var account := EnsureAccount(u);
      if Max(0, account.balance - account.reserved) < points {
        return Failure(PointsUnavailable);
      }
      accounts := accounts[u := account.(reserved := account.reserved + points, version := account.version + 1)];
      r := Success(());
    }

    method ReleaseOrderReservation(i: nat) returns (r: Result<(), Error>)
      requires i < |orders|
      modifies this
      ensures match Release(old(Snapshot()), i)
              case Success(m) => r.Success? && Snapshot() == m
              case Failure(e) => r == Failure(e)
    {
      var order := orders[i];
      if order.redeemed == 0 || order.status != Held {
        return Success(());
      }
      var account := EnsureAccount(order.user);
      if account.reserved < order.redeemed {
        return Failure(ReservationInconsistent);
      }
      accounts := accounts[order.user := account.(reserved := account.reserved - order.redeemed, version := account.version + 1)];
      orders := orders[i := order.(status := Released)];
      r := Success(());
    }

    method SettleOrder(i: nat) returns (r: Result<(), Error>)
      requires i < |orders|
      modifies this
      ensures match Settle(old(Snapshot()), i)
              case Success(m) => r.Success? && Snapshot() == m
              case Failure(e) => r == Failure(e)
    {
      var account := EnsureAccount(orders[i].user);
      account, r := SettleRedemption(i, account);
      if r.Failure? {
        return;
      }
      SettleEarning(i, account);
    }

    /** The redeeming half: takes held points, or free ones of a released redemption, off the balance. */
    method SettleRedemption(i: nat, current: Account) returns (account: Account, r: Result<(), Error>)
      requires i < |orders| && orders[i].user in accounts && current == accounts[orders[i].user]
      modifies this
      ensures match SettleRedeem(old(Snapshot()), i)
              case Success(m) =>
                && r.Success? && Snapshot() == m && i < |orders| && orders[i].user in accounts && account == accounts[orders[i].user]
              case Failure(e) => r == Failure(e)
    {
      var order := orders[i];
      account, r := current, Success(());
      if order.redeemed > 0 && order.status != Redeemed && order.status != Restored {
        if !HasTx(log, i, Redeem) {
          var wasHeld := order.status == Held;
          var available := Max(0, account.balance - account.reserved);
          if if wasHeld then account.reserved < order.redeemed else available < order.redeemed {
            r := Failure(PointsUnavailable);
            return;
          }
          account := account.(balance := account.balance - order.redeemed,
                              reserved := if wasHeld then account.reserved - order.redeemed else account.reserved,
                              lifetimeRedeemed := account.lifetimeRedeemed + order.redeemed,
                              version := account.version + 1);
          accounts := accounts[order.user := account];
          log := log + [Tx(order.user, i, Redeem, -(order.redeemed as int), account.balance)];
        }
        orders := orders[i := order.(status := Redeemed)];
      }
    }

    /** The earning half, once per order. */
    method SettleEarning(i: nat, current: Account)
      requires i < |orders| && orders[i].user in accounts && current == accounts[orders[i].user]
      modifies this
      ensures Snapshot() == SettleEarn(old(Snapshot()), i)
    {
      var order := orders[i];
      if order.earned > 0 && !HasTx(log, i, Earn) {
        var account := current.(balance := current.balance + order.earned,
                                lifetimeEarned := current.lifetimeEarned + order.earned,
                                version := current.version + 1);
        accounts := accounts[order.user := account];
        log := log + [Tx(order.user, i, Earn, order.earned, account.balance)];
      }
    }

    method ReverseOrder(i: nat)
      requires i < |orders|
      modifies this
      ensures Snapshot() == Reverse(old(Snapshot()), i)
    {
      var order := orders[i];
      var account := EnsureAccount(order.user);
      if HasTx(log, i, Earn) && !HasTx(log, i, EarnReversal) && order.earned > 0 {
        account := account.(balance := account.balance - order.earned, version := account.version + 1);
        accounts := accounts[order.user := account];
        log := log + [Tx(order.user, i, EarnReversal, -(order.earned as int), account.balance)];
      }
      ghost var reversed := Snapshot();
      assert reversed == ReverseEarn(Ensured(old(Snapshot()), order.user), i);
      if HasTx(log, i, Redeem) && !HasTx(log, i, RedeemReversal) && order.redeemed > 0 {
        account := account.(balance := account.balance + order.redeemed, version := account.version + 1);
        accounts := accounts[order.user := account];
        log := log + [Tx(order.user, i, RedeemReversal, order.redeemed, account.balance)];
        orders := orders[i := order.(status := Restored)];
      }
      assert Snapshot() == ReverseRedeem(reversed, i);
    }
  }
}
