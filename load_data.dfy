/**
  The record-accumulation loop of `loadData` (archivedcomplexmodel.py).

  Opening the file, `json.load` and `strptime` are outside the model: the
  input is the already-parsed list of day records of the region, in the
  order of the file. A day is kept when its `total` entry is truthy and its
  date lies in the requested year and months; a kept day contributes one
  entry to each of the five lists.
 */
module LoadData {
  import opened Wrappers

  /**
    One entry of the region's `dates` object: the parsed date's year and month,
    and the `total` entry, `None` when it is missing or null. A field whose
    JSON value is null is a present key mapped to `None`.
   */
  datatype DayRecord = DayRecord(year: int, month: int, total: Option<map<string, Option<int>>>)

  /** A Python dictionary is truthy when it is present and not empty. */
  predicate Selected(rec: DayRecord, year: int, months: seq<int>)
  {
    rec.total.Some? && |rec.total.value| > 0 && rec.year == year && rec.month in months
  }

  /** `total.get(key) if total.get(key) else 0`: a missing, null or zero field counts 0. */
  function Field(rec: DayRecord, key: string): (v: int)
    ensures v != 0 ==> rec.total.Some? && key in rec.total.value && rec.total.value[key] == Some(v)
    ensures rec.total.Some? && key in rec.total.value && rec.total.value[key].Some?
            ==> v == rec.total.value[key].value
  {
    if rec.total.Some? && key in rec.total.value && rec.total.value[key].Some?
       && rec.total.value[key].value != 0
    then rec.total.value[key].value
    else 0
  }

  /** The records the loop keeps, in input order. */
  function Kept(records: seq<DayRecord>, year: int, months: seq<int>): seq<DayRecord>
    decreases |records|
  {
    if records == [] then []
    else
      var last := records[|records| - 1];
      Kept(records[..|records| - 1], year, months) + (if Selected(last, year, months) then [last] else [])
  }

  /** Exactly the selected records are kept. */
  lemma {:induction false} KeptMembers(records: seq<DayRecord>, year: int, months: seq<int>, rec: DayRecord)
    ensures rec in Kept(records, year, months) <==> rec in records && Selected(rec, year, months)
    decreases |records|
  {
    if records != [] {
      var init := records[..|records| - 1];
      KeptMembers(init, year, months, rec);
      assert records == init + [records[|records| - 1]];
    }
  }

  /** Filtering distributes over concatenation, so the input order is kept. */
  lemma {:induction false} KeptAppend(a: seq<DayRecord>, b: seq<DayRecord>, year: int, months: seq<int>)
    ensures Kept(a + b, year, months) == Kept(a, year, months) + Kept(b, year, months)
    decreases |b|
  {
    if b == [] {
      assert a + b == a;
    } else {
      var init := b[..|b| - 1];
      KeptAppend(a, init, year, months);
      assert (a + b)[..|a + b| - 1] == a + init;
    }
  }

  /**
    The five lists of `loadData`: one entry per kept day, the field values
    with falsy ones counted 0, and susceptible as the rest of the population.
   */
  method LoadData(records: seq<DayRecord>, n: int, year: int, months: seq<int>)
    returns (susceptible: seq<int>, tested: seq<int>, confirmed: seq<int>,
             recovered: seq<int>, deceased: seq<int>)
    ensures var kept := Kept(records, year, months);
      && |susceptible| == |kept| && |tested| == |kept| && |confirmed| == |kept|
      && |recovered| == |kept| && |deceased| == |kept|
      && (forall k :: 0 <= k < |kept| ==>
            && tested[k] == Field(kept[k], "tested")
            && confirmed[k] == Field(kept[k], "confirmed")
            && recovered[k] == Field(kept[k], "recovered")
            && deceased[k] == Field(kept[k], "deceased"))
    ensures forall k :: 0 <= k < |susceptible| ==>
      susceptible[k] + tested[k] + confirmed[k] + recovered[k] + deceased[k] == n
  {
    susceptible, tested, confirmed, recovered, deceased := [], [], [], [], [];
    for j := 0 to |records|
      invariant var kept := Kept(records[..j], year, months);
        && |susceptible| == |kept| && |tested| == |kept| && |confirmed| == |kept|
        && |recovered| == |kept| && |deceased| == |kept|
        && (forall k :: 0 <= k < |kept| ==>
              && tested[k] == Field(kept[k], "tested")
              && confirmed[k] == Field(kept[k], "confirmed")
              && recovered[k] == Field(kept[k], "recovered")
              && deceased[k] == Field(kept[k], "deceased"))
      invariant forall k :: 0 <= k < |susceptible| ==>
        susceptible[k] + tested[k] + confirmed[k] + recovered[k] + deceased[k] == n
    {
      assert records[..j + 1][..j] == records[..j];
      var rec := records[j];
      if Selected(rec, year, months) {
        tested := tested + [Field(rec, "tested")];
        confirmed := confirmed + [Field(rec, "confirmed")];
        recovered := recovered + [Field(rec, "recovered")];
        deceased := deceased + [Field(rec, "deceased")];
        var last := |tested| - 1;
        susceptible := susceptible + [n - (tested[last] + confirmed[last] + recovered[last] + deceased[last])];
      }
    }
    assert records[..|records|] == records;
  }
}
