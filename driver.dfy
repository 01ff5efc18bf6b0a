/**
  From loaded records to the archived model: the lists `loadData` returns are
  handed to `SEIRDModel`, whose series then conserve the population on every day.
 */
module Driver {
  import opened LoadData
  import opened ArchivedModel

  /** Load the kept days of `records` and build the time-dependent model from them. */
  method LoadModel(records: seq<DayRecord>, n: int, year: int, months: seq<int>) returns (m: SEIRDModel)
    ensures fresh(m)
    ensures m.Valid() && Conserved(m) && m.N == n
    ensures |m.S| == |Kept(records, year, months)|
    ensures forall k :: 0 <= k < |m.S| ==>
      && m.E[k] == Field(Kept(records, year, months)[k], "tested")
      && m.I[k] == Field(Kept(records, year, months)[k], "confirmed")
      && m.R[k] == Field(Kept(records, year, months)[k], "recovered")
      && m.D[k] == Field(Kept(records, year, months)[k], "deceased")
  {
    var susceptible, tested, confirmed, recovered, deceased := LoadData.LoadData(records, n, year, months);
    m := new SEIRDModel(n, susceptible, tested, confirmed, recovered, deceased);
  }
}
