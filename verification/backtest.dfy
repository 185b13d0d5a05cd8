/** The backtest engine: one pass over the signal rows holding at most one long position,
    a log of closed trades, and summary statistics over that log. */
module Backtest {
  import opened Series
  import opened Bars

  /** A row of the signal frame as the backtest reads it. */
  datatype Row = Row(date: Date, close: real, buySignal: bool, sellSignal: bool)

  /** The open position (`Buy_Date`, `Buy_Price`, `Buy_Index`). */
  datatype Position = Position(buyDate: Date, buyPrice: real, buyIndex: nat)

  datatype Option<T> = None | Some(value: T)

  /** A closed trade, as the position record is completed and appended to the log. */
  datatype Trade = Trade(
    buyDate: Date, buyPrice: real, buyIndex: nat,
    sellDate: Date, sellPrice: real, sellIndex: nat,
    pnl: real, returnPct: Cell)

  /** `Total Trades`, `Winning Trades`, `Win Ratio (%)`, `Total PnL` and
      `Cumulative Return (%)`, before rounding. */
  datatype Stats = Stats(
    totalTrades: nat, winningTrades: nat, winRatio: real, totalPnl: real, cumulativeReturn: Cell)

  /** `part / whole * 100` in float arithmetic: a zero `whole` gives a non-finite value. */
  function Percent(part: real, whole: real): (r: Cell)
    ensures r.Num? <==> whole != 0.0
    ensures r.Num? ==> r.val * whole == part * 100.0
  {
    if whole == 0.0 then NaN else Num(part / whole * 100.0)
  }

  /** Closing the position on row i completes its record with the exit fields. The trade wins
      exactly when the exit close is above the entry price, and with a positive entry price its
      return has the sign of its PnL. */
  function Exit(p: Position, row: Row, i: nat): (tr: Trade)
    ensures tr.buyIndex == p.buyIndex && tr.sellIndex == i
    ensures tr.pnl > 0.0 <==> row.close > p.buyPrice
    ensures tr.returnPct.Num? <==> p.buyPrice != 0.0
    ensures p.buyPrice > 0.0 ==> tr.returnPct.Num? && (tr.returnPct.val > 0.0 <==> tr.pnl > 0.0)
    ensures p.buyPrice > 0.0 ==> tr.returnPct.Num? && (tr.returnPct.val < 0.0 <==> tr.pnl < 0.0)
  {
    Trade(p.buyDate, p.buyPrice, p.buyIndex, row.date, row.close, i,
          row.close - p.buyPrice, Percent(row.close - p.buyPrice, p.buyPrice))
  }

  // ---- What the trade log is, stated without the loop ----

  /** No buy signal on rows lo .. hi-1. */
  predicate NoBuyIn(df: seq<Row>, lo: int, hi: int)
  {
    forall k :: lo <= k < hi && 0 <= k < |df| ==> !df[k].buySignal
  }

  /** Row b is where the engine, flat from row `from` on, opens its next position: the first
      buy signal at or after `from`. */
  predicate IsEntry(df: seq<Row>, from: nat, b: nat)
  {
    from <= b < |df| && df[b].buySignal && NoBuyIn(df, from, b)
  }

  /** Row s is where a position opened on row b is closed: the first later row with a sell
      signal, or the final row. */
  predicate IsExit(df: seq<Row>, b: nat, s: nat)
  {
    b < s < |df| && (df[s].sellSignal || s == |df| - 1)
    && forall k :: b < k < s ==> !df[k].sellSignal
  }

  /** The trade's prices, dates, PnL and return are those of its entry and exit rows. */
  predicate Records(df: seq<Row>, tr: Trade)
  {
    tr.buyIndex < |df| && tr.sellIndex < |df|
    && tr.buyDate == df[tr.buyIndex].date && tr.buyPrice == df[tr.buyIndex].close
    && tr.sellDate == df[tr.sellIndex].date && tr.sellPrice == df[tr.sellIndex].close
    && tr.pnl == tr.sellPrice - tr.buyPrice
    && tr.returnPct == Percent(tr.sellPrice - tr.buyPrice, tr.buyPrice)
  }

  /** The row from which the engine is flat again after the first j trades. */
  function Start(trades: seq<Trade>, j: nat): nat
    requires j <= |trades|
  {
    if j == 0 then 0 else trades[j - 1].sellIndex + 1
  }

  /** Trade j of the log opens and closes on the rows the rules choose, with that row's data. */
  predicate TradeOk(df: seq<Row>, trades: seq<Trade>, j: nat)
    requires j < |trades|
  {
    IsEntry(df, Start(trades, j), trades[j].buyIndex)
    && IsExit(df, trades[j].buyIndex, trades[j].sellIndex)
    && Records(df, trades[j])
  }

  /** `trades` is the log of the run over `df`: trade j opens on the first buy signal after
      trade j-1 closed and closes on the first sell signal after that (or on the final row),
      and after the last trade no buy signal occurs before the final row. A buy signal on the
      final row may open a position, but nothing can close it, so it is not logged. */
  predicate IsTradeLog(df: seq<Row>, trades: seq<Trade>)
  {
    && (forall j :: 0 <= j < |trades| ==> TradeOk(df, trades, j))
    && NoBuyIn(df, Start(trades, |trades|), |df| - 1)
  }

  /** Entry and exit never share a row, and every trade closes before the next one opens. */
  predicate Chronological(trades: seq<Trade>)
  {
    && (forall j :: 0 <= j < |trades| ==> trades[j].buyIndex < trades[j].sellIndex)
    && (forall i, j :: 0 <= i < j < |trades| ==> trades[i].sellIndex < trades[j].buyIndex)
  }

  // ---- Summary statistics ----

  /** Number of trades with a positive PnL. */
  function Winners(trades: seq<Trade>): (w: nat)
    ensures w <= |trades|
    ensures w == 0 <==> forall j :: 0 <= j < |trades| ==> trades[j].pnl <= 0.0
    ensures w == |trades| <==> forall j :: 0 <= j < |trades| ==> trades[j].pnl > 0.0
  {
    if trades == [] then 0
    else
      var rest := trades[..|trades| - 1];
      assert forall j :: 0 <= j < |rest| ==> rest[j] == trades[j];
      Winners(rest) + (if trades[|trades| - 1].pnl > 0.0 then 1 else 0)
  }

  /** Sum of the PnL column: not positive when no trade wins, positive when every trade of a
      non-empty log wins. */
  function TotalPnl(trades: seq<Trade>): (r: real)
    ensures (forall j :: 0 <= j < |trades| ==> trades[j].pnl <= 0.0) ==> r <= 0.0
    ensures trades != [] && (forall j :: 0 <= j < |trades| ==> trades[j].pnl > 0.0) ==> r > 0.0
  {
    if trades == [] then 0.0
    else
      var rest := trades[..|trades| - 1];
      assert forall j :: 0 <= j < |rest| ==> rest[j] == trades[j];
      TotalPnl(rest) + trades[|trades| - 1].pnl
  }

  /** The summary of a trade log: all zero for an empty log (no division happens); otherwise
      `Tally` of the trade count, the winners and the PnL sum. */
  function Summarize(trades: seq<Trade>, initialCapital: real): (s: Stats)
    ensures trades == [] ==> s == Stats(0, 0, 0.0, 0.0, Num(0.0))
    ensures s.totalTrades == |trades| && s.winningTrades == Winners(trades) && s.totalPnl == TotalPnl(trades)
    ensures 0.0 <= s.winRatio <= 100.0
  {
    if trades == [] then Stats(0, 0, 0.0, 0.0, Num(0.0))
    else Tally(|trades|, Winners(trades), TotalPnl(trades), initialCapital)
  }

  /** The statistics of a non-empty log of `total` trades, `wins` of them winners, with PnL sum
      `pnl`: the win ratio lies in [0, 100] and is `wins / total` in percent; the cumulative
      return is `pnl / initialCapital` in percent, non-finite when the capital is zero. */
  function Tally(total: nat, wins: nat, pnl: real, initialCapital: real): (s: Stats)
    requires 0 < total && wins <= total
    ensures s.totalTrades == total && s.winningTrades == wins && s.totalPnl == pnl
    ensures 0.0 <= s.winRatio <= 100.0
    ensures s.winRatio * total as real == wins as real * 100.0
    ensures s.cumulativeReturn.Num? <==> initialCapital != 0.0
    ensures s.cumulativeReturn.Num? ==> s.cumulativeReturn.val * initialCapital == pnl * 100.0
  {
    Stats(total, wins, WinRatio(wins, total), pnl, Percent(pnl, initialCapital))
  }

  /** `win_trades / total_trades * 100`: a percentage in [0, 100]. */
  function WinRatio(wins: nat, total: nat): (r: real)
    requires 0 < total && wins <= total
    ensures 0.0 <= r <= 100.0
    ensures r * total as real == wins as real * 100.0
  {
    var q := wins as real / total as real;
    assert q * total as real == wins as real;
    assert q <= 1.0 by {
      assert (total as real - wins as real) / total as real >= 0.0;
    }
    q * 100.0
  }

  // ---- The engine ----

  /** `run_backtest`: walks the rows once, opening a position on a buy signal while flat and
      closing it on a later sell signal or on the final row, then summarizes the log. */
  method RunBacktest(df: seq<Row>, initialCapital: real) returns (trades: seq<Trade>, stats: Stats)
    ensures IsTradeLog(df, trades)
    ensures Chronological(trades)
    ensures stats == Summarize(trades, initialCapital)
  {
    trades := [];
    var position: Option<Position> := None;
    for i := 0 to |df|
      invariant forall j :: 0 <= j < |trades| ==> TradeOk(df, trades, j)
      invariant forall j :: 0 <= j < |trades| ==> trades[j].sellIndex < i
      invariant position.None? ==> NoBuyIn(df, Start(trades, |trades|), i)
      invariant position.Some? ==> Holding(df, trades, position.value, i)
    {
      var row := df[i];
      if position.None? && row.buySignal {
        position := Some(Position(row.date, row.close, i));
      } else if position.Some? && (row.sellSignal || i == |df| - 1) {
        var closed := Exit(position.value, row, i);
        AppendTrade(df, trades, closed);
        trades := trades + [closed];
        position := None;
      }
    }
    if position.Some? {
      OpenAtEnd(df, trades, position.value);
    }
    LogIsChronological(df, trades);
    stats := Summarize(trades, initialCapital);
  }

  /** The loop's state while a position p is open before row i: p was opened on the entry row
      the rules choose, and no row since then closed it (none had a sell signal, and none was
      the final row). */
  predicate Holding(df: seq<Row>, trades: seq<Trade>, p: Position, i: nat)
  {
    p.buyIndex < i <= |df| && IsEntry(df, Start(trades, |trades|), p.buyIndex)
    && p.buyDate == df[p.buyIndex].date && p.buyPrice == df[p.buyIndex].close
    && (forall k :: p.buyIndex < k < i ==> !df[k].sellSignal)
    && (i < |df| || i == p.buyIndex + 1)
  }

  lemma AppendTrade(df: seq<Row>, trades: seq<Trade>, tr: Trade)
    requires forall j :: 0 <= j < |trades| ==> TradeOk(df, trades, j)
    requires IsEntry(df, Start(trades, |trades|), tr.buyIndex)
    requires IsExit(df, tr.buyIndex, tr.sellIndex) && Records(df, tr)
    ensures forall j :: 0 <= j < |trades| + 1 ==> TradeOk(df, trades + [tr], j)
  {
    var t' := trades + [tr];
    forall j | 0 <= j < |t'| ensures TradeOk(df, t', j) {
      assert Start(t', j) == if j == |trades| then Start(trades, |trades|) else Start(trades, j);
      if j < |trades| {
        assert TradeOk(df, trades, j);
      }
    }
  }

  /** A position still open after the last row was opened on the last row. */
  lemma OpenAtEnd(df: seq<Row>, trades: seq<Trade>, p: Position)
    requires Holding(df, trades, p, |df|)
    ensures p.buyIndex == |df| - 1
    ensures NoBuyIn(df, Start(trades, |trades|), |df| - 1)
  {
  }

  // ---- Properties of the trade log ----

  /** Trades never overlap: each opens after the previous one closed. */
  lemma LogIsChronological(df: seq<Row>, trades: seq<Trade>)
    requires IsTradeLog(df, trades)
    ensures Chronological(trades)
  {
    forall j | 0 <= j < |trades| ensures trades[j].buyIndex < trades[j].sellIndex {
      assert TradeOk(df, trades, j);
    }
    forall i, j | 0 <= i < j < |trades|
      ensures trades[i].sellIndex < trades[j].buyIndex
    {
      Ordered(df, trades, i, j);
    }
  }

  lemma {:induction false} Ordered(df: seq<Row>, trades: seq<Trade>, i: nat, j: nat)
    requires IsTradeLog(df, trades) && i < j < |trades|
    ensures trades[i].sellIndex < trades[j].buyIndex
    decreases j
  {
    assert TradeOk(df, trades, j) && TradeOk(df, trades, j - 1);
    if i < j - 1 {
      Ordered(df, trades, i, j - 1);
    }
  }

  /** A position is never opened on a row where the previous one closes or while it is open:
      no trade's entry row lies within another trade's holding period. */
  lemma BuyWhileLongIgnored(df: seq<Row>, trades: seq<Trade>, i: nat, j: nat)
    requires IsTradeLog(df, trades) && i < |trades| && j < |trades| && i != j
    ensures !(trades[i].buyIndex <= trades[j].buyIndex <= trades[i].sellIndex)
  {
    LogIsChronological(df, trades);
  }

  /** The entry row determined by where the engine became flat is unique. */
  lemma EntryUnique(df: seq<Row>, from: nat, b1: nat, b2: nat)
    requires IsEntry(df, from, b1) && IsEntry(df, from, b2)
    ensures b1 == b2
  {
  }

  /** The exit row of a position is unique. */
  lemma ExitUnique(df: seq<Row>, b: nat, s1: nat, s2: nat)
    requires IsExit(df, b, s1) && IsExit(df, b, s2)
    ensures s1 == s2
  {
  }

  /** Trade j of two logs is the same once both logs are flat again from the same row. */
  lemma SameTrade(df: seq<Row>, t1: seq<Trade>, t2: seq<Trade>, j: nat)
    requires j < |t1| && j < |t2| && TradeOk(df, t1, j) && TradeOk(df, t2, j)
    requires Start(t1, j) == Start(t2, j)
    ensures t1[j] == t2[j]
  {
    EntryUnique(df, Start(t1, j), t1[j].buyIndex, t2[j].buyIndex);
    ExitUnique(df, t1[j].buyIndex, t1[j].sellIndex, t2[j].sellIndex);
  }

  lemma {:induction false} LogsAgreeUpTo(df: seq<Row>, t1: seq<Trade>, t2: seq<Trade>, j: nat)
    requires IsTradeLog(df, t1) && IsTradeLog(df, t2)
    requires j < |t1| && j < |t2|
    ensures forall k :: 0 <= k <= j ==> t1[k] == t2[k]
  {
    if j > 0 {
      LogsAgreeUpTo(df, t1, t2, j - 1);
    }
    assert TradeOk(df, t1, j) && TradeOk(df, t2, j);
    SameTrade(df, t1, t2, j);
  }

  /** The first trade a log lacks would open on a buy signal before the final row, which the
      log's tail condition rules out. */
  lemma NextEntryBeforeLast(df: seq<Row>, trades: seq<Trade>, n: nat)
    requires IsTradeLog(df, trades) && n < |trades|
    ensures Start(trades, n) <= trades[n].buyIndex < |df| - 1 && df[trades[n].buyIndex].buySignal
  {
    assert TradeOk(df, trades, n);
  }

  lemma NoLongerLog(df: seq<Row>, t1: seq<Trade>, t2: seq<Trade>)
    requires IsTradeLog(df, t1) && IsTradeLog(df, t2)
    ensures |t2| <= |t1|
  {
    if |t1| < |t2| {
      var n := |t1|;
      NextEntryBeforeLast(df, t2, n);
      if n > 0 {
        LogsAgreeUpTo(df, t1, t2, n - 1);
      }
      assert false;
    }
  }

  /** The log is determined by the rows: two logs that both satisfy IsTradeLog are equal, so
      the loop's result is the one log the rules allow. */
  lemma TradeLogUnique(df: seq<Row>, t1: seq<Trade>, t2: seq<Trade>)
    requires IsTradeLog(df, t1) && IsTradeLog(df, t2)
    ensures t1 == t2
  {
    NoLongerLog(df, t1, t2);
    NoLongerLog(df, t2, t1);
    if |t1| > 0 {
      LogsAgreeUpTo(df, t1, t2, |t1| - 1);
    }
  }

  /** The rows with the final row's buy signal cleared. */
  function WithoutFinalBuy(df: seq<Row>): (r: seq<Row>)
    requires |df| > 0
    ensures |r| == |df| && !r[|df| - 1].buySignal
    ensures forall k :: 0 <= k < |df| - 1 ==> r[k] == df[k]
  {
    df[|df| - 1 := df[|df| - 1].(buySignal := false)]
  }

  /** A position opened on the final row never reaches the log, even though the rows end while
      it is open: every logged trade opens before the final row, and the log is the same whether
      or not the final row carries a buy signal. */
  lemma FinalRowEntryUnlogged(df: seq<Row>, trades: seq<Trade>)
    requires |df| > 0
    ensures IsTradeLog(df, trades) ==> forall j :: 0 <= j < |trades| ==> trades[j].buyIndex < |df| - 1
    ensures IsTradeLog(df, trades) <==> IsTradeLog(WithoutFinalBuy(df), trades)
  {
    var cleared := WithoutFinalBuy(df);
    if IsTradeLog(df, trades) {
      forall j | 0 <= j < |trades|
        ensures trades[j].buyIndex < |df| - 1 && TradeOk(cleared, trades, j)
      {
        NextEntryBeforeLast(df, trades, j);
        assert TradeOk(df, trades, j);
      }
    }
    if IsTradeLog(cleared, trades) {
      forall j | 0 <= j < |trades| ensures TradeOk(df, trades, j) {
        assert TradeOk(cleared, trades, j);
      }
    }
  }

  /** The summed PnL equals the sum of price differences of the entry and exit rows. */
  lemma {:induction false} PnlIsPriceDifference(df: seq<Row>, trades: seq<Trade>)
    requires IsTradeLog(df, trades)
    ensures TotalPnl(trades) == SellTotal(trades) - BuyTotal(trades)
  {
    forall j | 0 <= j < |trades| ensures Records(df, trades[j]) {
      assert TradeOk(df, trades, j);
    }
    PnlSplit(df, trades);
  }

  lemma {:induction false} PnlSplit(df: seq<Row>, trades: seq<Trade>)
    requires forall j :: 0 <= j < |trades| ==> Records(df, trades[j])
    ensures TotalPnl(trades) == SellTotal(trades) - BuyTotal(trades)
  {
    if trades != [] {
      var rest := trades[..|trades| - 1];
      assert forall j :: 0 <= j < |rest| ==> rest[j] == trades[j];
      PnlSplit(df, rest);
    }
  }

  /** Sum of the exit prices. */
  function SellTotal(trades: seq<Trade>): real
  {
    if trades == [] then 0.0 else SellTotal(trades[..|trades| - 1]) + trades[|trades| - 1].sellPrice
  }

  /** Sum of the entry prices. */
  function BuyTotal(trades: seq<Trade>): real
  {
    if trades == [] then 0.0 else BuyTotal(trades[..|trades| - 1]) + trades[|trades| - 1].buyPrice
  }
}
