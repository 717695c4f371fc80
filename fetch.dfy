/** Assembling a user's snapshot from the subgraph's answer: the try block of
    `fetch_data`. The query and its transport are not modelled; the input is
    the answer's `data.users` value. */
module Fetch {
  import opened Wrappers
  import opened Chains
  import opened Normalize

  const BorrowField := "borrowHistory"
  const RepayField := "repayHistory"
  const WithdrawField := "redeemUnderlyingHistory"

  /** A user entry of the answer: its `reserves` list (None when missing or
      null) and its history lists by field name. */
  datatype RawUser = RawUser(reserves: Option<seq<RawPosition>>, histories: map<string, seq<RawEvent>>)

  /** The five lists `fetch_data` returns, in its order. */
  datatype Snapshot = Snapshot(reserves: seq<Position>, deposits: seq<Event>, borrows: seq<Event>,
                               repays: seq<Event>, withdraws: seq<Event>)

  /** The user entry has all five lists the chain's query asks for. */
  predicate UserComplete(c: Chain, user: RawUser) {
    && user.reserves.Some?
    && DepositField(c) in user.histories
    && BorrowField in user.histories
    && RepayField in user.histories
    && WithdrawField in user.histories
  }

  /** The answer names at least one user, whose entry is complete and whose
      every record can be cleaned. */
  predicate SnapshotAvailable(c: Chain, usdPriceEth: real, symbolPrice: string -> Option<real>,
                              users: Option<seq<RawUser>>) {
    && users.Some?
    && |users.value| > 0
    && UserComplete(c, users.value[0])
    && var user := users.value[0];
       && AllReservesClean(c, usdPriceEth, symbolPrice, user.reserves.value)
       && AllEventsClean(c, usdPriceEth, symbolPrice, user.histories[DepositField(c)])
       && AllEventsClean(c, usdPriceEth, symbolPrice, user.histories[BorrowField])
       && AllEventsClean(c, usdPriceEth, symbolPrice, user.histories[RepayField])
       && AllEventsClean(c, usdPriceEth, symbolPrice, user.histories[WithdrawField])
  }

  /** `s` holds the first user's five lists, each cleaned one for one and in
      order; deposits come from the chain's own deposit field. */
  predicate SnapshotOf(c: Chain, usdPriceEth: real, symbolPrice: string -> Option<real>,
                       user: RawUser, s: Snapshot)
    requires UserComplete(c, user)
  {
    && CleanedReserves(c, usdPriceEth, symbolPrice, user.reserves.value, s.reserves)
    && CleanedEvents(c, usdPriceEth, symbolPrice, user.histories[DepositField(c)], s.deposits)
    && CleanedEvents(c, usdPriceEth, symbolPrice, user.histories[BorrowField], s.borrows)
    && CleanedEvents(c, usdPriceEth, symbolPrice, user.histories[RepayField], s.repays)
    && CleanedEvents(c, usdPriceEth, symbolPrice, user.histories[WithdrawField], s.withdraws)
  }

  /** The snapshot of the first user in `users`, all or nothing: None (the
      source's `False`) when there is no user, a list is missing or any
      record fails to clean. */
  method FetchData(c: Chain, usdPriceEth: real, symbolPrice: string -> Option<real>,
                   users: Option<seq<RawUser>>) returns (snapshot: Option<Snapshot>)
    ensures snapshot.Some? <==> SnapshotAvailable(c, usdPriceEth, symbolPrice, users)
    ensures snapshot.Some? ==> SnapshotOf(c, usdPriceEth, symbolPrice, users.value[0], snapshot.value)
  {
    if users.None? || |users.value| == 0 {
      return None;
    }
    var user := users.value[0];
    if !UserComplete(c, user) {
      return None;
    }
    var reserves := CleanReserves(c, usdPriceEth, symbolPrice, user.reserves.value);
    if reserves.None? {
      return None;
    }
    var deposits := CleanDeposits(c, usdPriceEth, symbolPrice, user.histories[DepositField(c)]);
    if deposits.None? {
      return None;
    }
    var borrows := CleanDeposits(c, usdPriceEth, symbolPrice, user.histories[BorrowField]);
    if borrows.None? {
      return None;
    }
    var repays := CleanDeposits(c, usdPriceEth, symbolPrice, user.histories[RepayField]);
    if repays.None? {
      return None;
    }
    var withdraws := CleanDeposits(c, usdPriceEth, symbolPrice, user.histories[WithdrawField]);
    if withdraws.None? {
      return None;
    }
    return Some(Snapshot(reserves.value, deposits.value, borrows.value, repays.value, withdraws.value));
  }
}
