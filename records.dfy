/**
 * The row-to-record shape of `historical_records_from_dataframe`: each row of
 * the provider's frame becomes one JSON record; a NaN price becomes 0.0 and a
 * NaN volume 0, a present volume is truncated to an integer.
 */
module Records {
  import opened Floats

  /** One row of the provider's frame; the date is a day ordinal. */
  datatype PriceRow = PriceRow(date: int, open: Float, high: Float, low: Float, close: Float, volume: Float)

  /** One record of the response. */
  datatype PriceRecord = PriceRecord(date: int, open: real, high: real, low: real, close: real, volume: int)

  /**
   * A record keeps the row's date, its defined prices and the integer part
   * of its defined volume; every undefined value becomes zero.
   */
  function ToRecord(row: PriceRow): (r: PriceRecord)
    ensures r.date == row.date
    ensures row.open.Fin? ==> r.open == row.open.value
    ensures row.open.NaN? ==> r.open == 0.0
    ensures row.high.Fin? ==> r.high == row.high.value
    ensures row.high.NaN? ==> r.high == 0.0
    ensures row.low.Fin? ==> r.low == row.low.value
    ensures row.low.NaN? ==> r.low == 0.0
    ensures row.close.Fin? ==> r.close == row.close.value
    ensures row.close.NaN? ==> r.close == 0.0
    ensures row.volume.NaN? ==> r.volume == 0
    ensures row.volume.Fin? && 0.0 <= row.volume.value ==> 0 <= r.volume && r.volume as real <= row.volume.value < r.volume as real + 1.0
    ensures row.volume.Fin? && row.volume.value < 0.0 ==> r.volume <= 0 && r.volume as real - 1.0 < row.volume.value
  {
    PriceRecord(row.date, OrZero(row.open), OrZero(row.high), OrZero(row.low), OrZero(row.close),
                if row.volume.Fin? then Truncate(row.volume.value) else 0)
  }

  /** The loop over the frame's rows: one record per row, in row order. */
  method HistoricalRecordsFromFrame(rows: seq<PriceRow>) returns (records: seq<PriceRecord>)
    ensures |records| == |rows|
    ensures forall i :: 0 <= i < |rows| ==> records[i] == ToRecord(rows[i])
  {
    records := [];
    for i := 0 to |rows|
      invariant |records| == i
      invariant forall k :: 0 <= k < i ==> records[k] == ToRecord(rows[k])
    {
      records := records + [ToRecord(rows[i])];
    }
  }

  /** The records are in date order exactly when the rows are. */
  lemma RecordsKeepDateOrder(rows: seq<PriceRow>, records: seq<PriceRecord>)
    requires |records| == |rows|
    requires forall i :: 0 <= i < |rows| ==> records[i] == ToRecord(rows[i])
    ensures (forall i, j :: 0 <= i < j < |rows| ==> rows[i].date <= rows[j].date) <==>
            (forall i, j :: 0 <= i < j < |records| ==> records[i].date <= records[j].date)
  {
    assert forall i :: 0 <= i < |rows| ==> records[i].date == rows[i].date;
  }
}
