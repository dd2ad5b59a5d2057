// Cash (src/ledger/cash.rs): USDC split into an available and a reserved part.
//
// The value type says what every operation does to the two balances; the class carries
// them as fields and takes the source's branches.
module CashBalances {
  import opened Base

  datatype Outcome = Ok(amount: real) | OrderError

  datatype Cash = Cash(available: real, reserved: real) {
    function Total(): real {
      available + reserved
    }

    predicate CanReserve(amount: real) {
      0.0 < amount <= available
    }

    // Moves an amount between the two parts: positive reserves, negative releases.
    function Moved(amount: real): Cash {
      Cash(available - amount, reserved + amount)
    }

    // What a release of the amount gives back: never more than is reserved.
    function Releasable(amount: real): real {
      if amount <= 0.0 then 0.0 else Min(amount, reserved)
    }

    function Released(amount: real): Cash {
      Moved(-Releasable(amount))
    }

    // What a purchase takes out of the reserved part: never more than is there.
    function SettledBuy(amount: real): Cash {
      if amount <= 0.0 then this else Cash(available, reserved - Min(amount, reserved))
    }

    // Adds to the available part; an amount that is not positive is ignored.
    function Received(amount: real): Cash {
      Cash(available + Max(amount, 0.0), reserved)
    }

    // Takes a fee from the available part, into debt if need be; a rebate is ignored.
    function Charged(fee: real): Cash {
      Cash(available - Max(fee, 0.0), reserved)
    }

    function Withdrawn(amount: real): Cash {
      if 0.0 < amount <= available then Cash(available - amount, reserved) else this
    }
  }

  class CashBalance {
    var available: real
    var reserved: real

    function View(): Cash
      reads this
    {
      Cash(available, reserved)
    }

    constructor (initial: real)
      ensures View() == Cash(initial, 0.0)
    {
      available := initial;
      reserved := 0.0;
    }

    method Reserve(amount: real) returns (ok: bool)
      modifies this
      ensures ok <==> 0.0 < amount <= old(available)
      ensures reserved == old(reserved) + (if ok then amount else 0.0)
      ensures available + reserved == old(available) + old(reserved)
      ensures View() == if ok then old(View()).Moved(amount) else old(View())
    {
      if amount <= 0.0 {
        return false;
      }
      if available < amount {
        return false;
      }
      available := available - amount;
      reserved := reserved + amount;
      ok := true;
    }

    method Release(amount: real) returns (released: real)
      modifies this
      ensures old(reserved) >= 0.0 ==> 0.0 <= released <= old(reserved)
      ensures released == if amount <= 0.0 then 0.0 else if amount <= old(reserved) then amount else old(reserved)
      ensures reserved == old(reserved) - released && available == old(available) + released
      ensures View() == old(View()).Released(amount)
    {
      if amount <= 0.0 {
        return 0.0;
      }
      released := Min(amount, reserved);
      reserved := reserved - released;
      available := available + released;
    }

    method SettleBuy(amount: real) returns (r: Outcome)
      modifies this
      ensures r == if amount <= 0.0 then OrderError else Ok(Min(amount, old(reserved)))
      ensures available == old(available) && (r.Ok? ==> reserved == old(reserved) - r.amount)
      ensures View() == old(View()).SettledBuy(amount)
    {
      if amount <= 0.0 {
        return OrderError;
      }
      if reserved < amount {
        var actual := reserved;
        reserved := 0.0;
        return Ok(actual);
      }
      reserved := reserved - amount;
      r := Ok(amount);
    }

    method SettleSell(proceeds: real)
      modifies this
      ensures available == old(available) + (if proceeds > 0.0 then proceeds else 0.0) && reserved == old(reserved)
      ensures View() == old(View()).Received(proceeds)
    {
      if proceeds <= 0.0 {
        return;
      }
      available := available + proceeds;
    }

    method Deposit(amount: real)
      modifies this
      ensures available == old(available) + (if amount > 0.0 then amount else 0.0) && reserved == old(reserved)
      ensures View() == old(View()).Received(amount)
    {
      if amount <= 0.0 {
        return;
      }
      available := available + amount;
    }

    method Withdraw(amount: real) returns (r: Outcome)
      modifies this
      ensures r == if 0.0 < amount <= old(available) then Ok(amount) else OrderError
      ensures available == old(available) - (if r.Ok? then amount else 0.0) && reserved == old(reserved)
      ensures View() == old(View()).Withdrawn(amount)
    {
      if amount <= 0.0 {
        return OrderError;
      }
      if available < amount {
        return OrderError;
      }
      available := available - amount;
      r := Ok(amount);
    }

    method DeductFee(fee: real)
      modifies this
      ensures available == old(available) - (if fee > 0.0 then fee else 0.0) && reserved == old(reserved)
      ensures View() == old(View()).Charged(fee)
    {
      if fee <= 0.0 {
        return;
      }
      available := available - fee;
    }

    // Brings the total to what the exchange holds, or to what is reserved if that is more, unless
    // it is within the threshold of it already.
    method SyncFromExchange(exchangeTotal: real, threshold: real) returns (drift: Option<real>)
      modifies this
      ensures reserved == old(reserved)
      ensures drift.None? ==> available == old(available)
      ensures drift.Some? ==> available == old(available) + drift.value && Abs(drift.value) > threshold
      ensures var target := if exchangeTotal >= reserved then exchangeTotal else reserved;
              && (drift.Some? <==> Abs(target - (old(available) + reserved)) > threshold)
              && (drift.Some? ==> available + reserved == target)
    {
      var exchangeAvailable := Max(exchangeTotal - reserved, 0.0);
      var d := exchangeAvailable - available;
      if Abs(d) > threshold {
        available := exchangeAvailable;
        drift := Some(d);
      } else {
        drift := None;
      }
    }

    method Reset(initial: real)
      modifies this
      ensures View() == Cash(initial, 0.0)
    {
      available := initial;
      reserved := 0.0;
    }
  }

  // Reserving and releasing only move cash between the two parts, and an amount that is
  // reserved comes back whole exactly when nothing else has eaten into it.
  lemma ReserveThenRelease(cash: Cash, amount: real, spent: real)
    requires cash.CanReserve(amount) && cash.reserved >= 0.0 && spent > 0.0
    ensures cash.Moved(amount).Total() == cash.Total()
    ensures cash.Moved(amount).Released(amount) == cash
    ensures cash.Moved(amount).SettledBuy(spent).Releasable(amount) == amount <==> spent <= cash.reserved
  {
  }
}
