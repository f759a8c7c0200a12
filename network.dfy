/**
 * The network sampler (NetworkPerfService). Each update reads the wlan and
 * radio lines of /proc/net/dev and queues the cumulative received and sent
 * kilobytes; each dump drains the queue and reports how much the counters
 * grew since the last sample it saw.
 */
module Network {
  import opened Text
  import opened Sampler

  datatype NetSample = NetSample(rx: real, tx: real)

  /** The whitespace-separated fields of one interface line. */
  function Fields(line: string): seq<string>
  {
    Split(Strip(line), WhiteRun)
  }

  function FieldRows(lines: seq<string>): (rows: seq<seq<string>>)
    ensures |rows| == |lines|
  {
    if lines == [] then [] else [Fields(lines[0])] + FieldRows(lines[1..])
  }

  /**
   * The receive (field 1) and transmit (field 9) counters of one row, in KiB.
   * A counter that is not a long is a NumberFormatException (None).
   */
  function RowKib(data: seq<string>): Option<(real, real)>
    requires |data| >= 10
  {
    var rx := ParseJavaInt(data[1], LONG_MIN, LONG_MAX);
    var tx := ParseJavaInt(data[9], LONG_MIN, LONG_MAX);
    if rx.None? || tx.None? then None else Some((rx.value as real / 1024.0, tx.value as real / 1024.0))
  }

  /** Sums the counters over the rows before the first one with fewer than ten fields. */
  function NetRows(rows: seq<seq<string>>): Option<NetSample>
  {
    if rows == [] then Some(NetSample(0.0, 0.0))
    else if |rows[0]| < 10 then Some(NetSample(0.0, 0.0))
    else match RowKib(rows[0])
      case None => None
      case Some((rx, tx)) => Shift(rx, tx, NetRows(rows[1..]))
  }

  function NetworkReading(info: string): Option<NetSample>
  {
    NetRows(FieldRows(Split(info, Literal("\n"))))
  }

  /** The summing loop over the interface lines, each already cut into fields. */
  method SumRows(rows: seq<seq<string>>) returns (r: Option<NetSample>)
    ensures r == NetRows(rows)
  {
    var rxBytes := 0.0;
    var txBytes := 0.0;
    var i := 0;
    assert rows[i..] == rows;
    ShiftZero(NetRows(rows));
    while i < |rows|
      invariant 0 <= i <= |rows|
      invariant NetRows(rows) == Shift(rxBytes, txBytes, NetRows(rows[i..]))
    {
      if |rows[i]| < 10 {
        ShortRowEnds(rows, i);
        break;
      }
      var kib := RowKib(rows[i]);
      if kib.None? {
        RowFails(rows, i);
        return None;
      }
      var (rxKib, txKib) := kib.value;
      RowStep(rows, i, rxKib, txKib, rxBytes, txBytes);
      rxBytes := rxBytes + rxKib;
      txBytes := txBytes + txKib;
      i := i + 1;
    }
    if i == |rows| {
      assert rows[i..] == [];
    }
    return Some(NetSample(rxBytes, txBytes));
  }

  method AcquireNetworkData(info: string) returns (r: Option<NetSample>)
    ensures r == NetworkReading(info)
  {
    var networkInfo := Split(info, Literal("\n"));
    r := SumRows(FieldRows(networkInfo));
  }

  /** A row that ends the reading. */
  lemma ShortRowEnds(rows: seq<seq<string>>, i: nat)
    requires i < |rows| && |rows[i]| < 10
    ensures NetRows(rows[i..]) == Some(NetSample(0.0, 0.0))
  {
    assert rows[i..][0] == rows[i];
  }

  /** A row whose two counters parse adds them to the rest. */
  lemma RowAdds(rows: seq<seq<string>>, i: nat, rx: real, tx: real)
    requires i < |rows| && |rows[i]| >= 10
    requires RowKib(rows[i]) == Some((rx, tx))
    ensures NetRows(rows[i..]) == Shift(rx, tx, NetRows(rows[i + 1..]))
  {
    assert rows[i..][0] == rows[i];
    assert rows[i..][1..] == rows[i + 1..];
  }

  /** The loop invariant carried over one row whose counters parse. */
  lemma RowStep(rows: seq<seq<string>>, i: nat, rx: real, tx: real, rxBytes: real, txBytes: real)
    requires i < |rows| && |rows[i]| >= 10
    requires RowKib(rows[i]) == Some((rx, tx))
    requires NetRows(rows) == Shift(rxBytes, txBytes, NetRows(rows[i..]))
    ensures NetRows(rows) == Shift(rxBytes + rx, txBytes + tx, NetRows(rows[i + 1..]))
  {
    RowAdds(rows, i, rx, tx);
    ShiftTwice(rxBytes, txBytes, rx, tx, NetRows(rows[i + 1..]));
  }

  /** A row with a counter that does not parse fails the reading. */
  lemma RowFails(rows: seq<seq<string>>, i: nat)
    requires i < |rows| && |rows[i]| >= 10
    requires RowKib(rows[i]).None?
    ensures NetRows(rows[i..]) == None
  {
    assert rows[i..][0] == rows[i];
  }

  function Shift(rx: real, tx: real, r: Option<NetSample>): Option<NetSample>
  {
    match r
    case None => None
    case Some(s) => Some(NetSample(rx + s.rx, tx + s.tx))
  }

  lemma ShiftZero(r: Option<NetSample>)
    ensures Shift(0.0, 0.0, r) == r
  {
  }

  lemma ShiftTwice(rx: real, tx: real, drx: real, dtx: real, r: Option<NetSample>)
    ensures Shift(rx, tx, Shift(drx, dtx, r)) == Shift(rx + drx, tx + dtx, r)
  {
  }

  /** A row with fewer than ten fields ends the reading: nothing after it is looked at. */
  lemma {:induction false} StopsAtShortRow(a: seq<seq<string>>, short: seq<string>, b: seq<seq<string>>, c: seq<seq<string>>)
    requires |short| < 10
    ensures NetRows(a + [short] + b) == NetRows(a + [short] + c)
    decreases |a|
  {
    if a == [] {
      assert (a + [short] + b)[0] == short && (a + [short] + c)[0] == short;
    } else {
      assert (a + [short] + b)[0] == a[0] && (a + [short] + c)[0] == a[0];
      assert (a + [short] + b)[1..] == a[1..] + [short] + b;
      assert (a + [short] + c)[1..] == a[1..] + [short] + c;
      StopsAtShortRow(a[1..], short, b, c);
    }
  }

  // ---------------------------------------------------------------------
  // The dump: deltas against the last sample seen

  datatype Drained = Drained(rx: real, tx: real, lastRx: real, lastTx: real)

  /**
   * Drains q given the last sample seen: each sample adds its growth over its
   * predecessor, except when the predecessor has a zero counter (as right
   * after start), and becomes the new predecessor.
   */
  function DrainDeltas(q: seq<NetSample>, lastRx: real, lastTx: real): Drained
  {
    if q == [] then Drained(0.0, 0.0, lastRx, lastTx)
    else
      var r := DrainDeltas(q[1..], q[0].rx, q[0].tx);
      if lastRx != 0.0 && lastTx != 0.0 then Drained(q[0].rx - lastRx + r.rx, q[0].tx - lastTx + r.tx, r.lastRx, r.lastTx)
      else r
  }

  /** After a dump the predecessor is the last sample drained. */
  lemma {:induction false} DrainRemembersLast(q: seq<NetSample>, lastRx: real, lastTx: real)
    requires q != []
    ensures DrainDeltas(q, lastRx, lastTx).lastRx == q[|q| - 1].rx
    ensures DrainDeltas(q, lastRx, lastTx).lastTx == q[|q| - 1].tx
    decreases |q|
  {
    if |q| > 1 {
      DrainRemembersLast(q[1..], q[0].rx, q[0].tx);
    }
  }

  predicate NonZero(q: seq<NetSample>)
  {
    forall i :: 0 <= i < |q| ==> q[i].rx != 0.0 && q[i].tx != 0.0
  }

  /** With non-zero counters the reported growth telescopes to last sample minus predecessor. */
  lemma {:induction false} DrainTelescopes(q: seq<NetSample>, lastRx: real, lastTx: real)
    requires q != [] && NonZero(q) && lastRx != 0.0 && lastTx != 0.0
    ensures DrainDeltas(q, lastRx, lastTx).rx == q[|q| - 1].rx - lastRx
    ensures DrainDeltas(q, lastRx, lastTx).tx == q[|q| - 1].tx - lastTx
    decreases |q|
  {
    if |q| > 1 {
      DrainTelescopes(q[1..], q[0].rx, q[0].tx);
    }
  }

  /** The first sample after a reset only sets the predecessor. */
  lemma FirstSampleAfterReset(q: seq<NetSample>)
    requires q != [] && NonZero(q)
    ensures DrainDeltas(q, 0.0, 0.0).rx == q[|q| - 1].rx - q[0].rx
    ensures DrainDeltas(q, 0.0, 0.0).tx == q[|q| - 1].tx - q[0].tx
  {
    if |q| > 1 {
      DrainTelescopes(q[1..], q[0].rx, q[0].tx);
    }
  }

  lemma NetExample()
    ensures DrainDeltas([NetSample(1000.0, 500.0), NetSample(1500.0, 650.0)], 0.0, 0.0) == Drained(500.0, 150.0, 1500.0, 650.0)
  {
  }

  class NetworkSampler {
    const base: BaseSampler<NetSample>
    var lastRxBytes: real
    var lastTxBytes: real

    constructor ()
      ensures fresh(base)
      ensures base.dataQueue == [] && base.timer == 0 && !base.executorShutDown
      ensures base.updateTask == NoTask && base.dumpTask == NoTask
      ensures lastRxBytes == 0.0 && lastTxBytes == 0.0
    {
      base := new BaseSampler<NetSample>();
      lastRxBytes := 0.0;
      lastTxBytes := 0.0;
    }

    /**
     * Queues one reading. An unparsable counter leaves the queue as it was,
     * and the exception stops the periodic update task for good.
     */
    method Update(info: string) returns (completed: bool)
      modifies base`dataQueue, base`updateTask
      ensures completed <==> NetworkReading(info).Some?
      ensures completed ==> base.dataQueue == old(base.dataQueue) + [NetworkReading(info).value]
      ensures completed ==> base.updateTask == old(base.updateTask)
      ensures !completed ==> base.dataQueue == old(base.dataQueue) && base.updateTask == Suppress(old(base.updateTask))
    {
      var reading := AcquireNetworkData(info);
      if reading.None? {
        base.UpdateThrew();
        return false;
      }
      base.dataQueue := base.dataQueue + [reading.value];
      return true;
    }

    method Dump() returns (rxBytes: real, txBytes: real)
      modifies this`lastRxBytes, this`lastTxBytes, base`dataQueue
      ensures base.dataQueue == []
      ensures DrainDeltas(old(base.dataQueue), old(lastRxBytes), old(lastTxBytes)) == Drained(rxBytes, txBytes, lastRxBytes, lastTxBytes)
    {
      base.Dump();
      var queue := base.dataQueue;
      var lastRx := lastRxBytes;
      var lastTx := lastTxBytes;
      rxBytes := 0.0;
      txBytes := 0.0;
      while queue != []
        invariant
          var d := DrainDeltas(queue, lastRx, lastTx);
          DrainDeltas(old(base.dataQueue), old(lastRxBytes), old(lastTxBytes)) == Drained(rxBytes + d.rx, txBytes + d.tx, d.lastRx, d.lastTx)
      {
        var data := queue[0];
        if lastRx != 0.0 && lastTx != 0.0 {
          rxBytes := rxBytes + (data.rx - lastRx);
          txBytes := txBytes + (data.tx - lastTx);
        }
        lastRx := data.rx;
        lastTx := data.tx;
        queue := queue[1..];
      }
      base.dataQueue := queue;
      lastRxBytes := lastRx;
      lastTxBytes := lastTx;
    }
  }
}
