/** The dashboard page's figures: the four status cards, and the total,
    unique-patient and success-rate badges, all computed from the hook's
    current data. */
module Dashboard {
  import opened Resource

  /** `data.filter(r => r.resource.metadata.state === s).length`. */
  function CountState(data: seq<ResourceWrapper>, s: ProcessingState): (n: nat)
    ensures n <= |data|
  {
    if data == [] then 0
    else (if data[0].State() == s then 1 else 0) + CountState(data[1..], s)
  }

  /** The four status cards. Unspecified records are counted by none. */
  datatype StatusCounts = StatusCounts(completed: nat, processing: nat, failed: nat, notStarted: nat) {
    function Sum(): nat { completed + processing + failed + notStarted }
  }

  function GetStatusCounts(data: seq<ResourceWrapper>): (c: StatusCounts)
    ensures c.completed == CountState(data, Completed)
    ensures c.processing == CountState(data, Processing)
    ensures c.failed == CountState(data, Failed)
    ensures c.notStarted == CountState(data, NotStarted)
  {
    StatusCounts(
      CountState(data, Completed),
      CountState(data, Processing),
      CountState(data, Failed),
      CountState(data, NotStarted))
  }

  /** Counting over a concatenation adds the counts of the parts. */
  lemma {:induction false} CountStateAppend(a: seq<ResourceWrapper>, b: seq<ResourceWrapper>, s: ProcessingState)
    ensures CountState(a + b, s) == CountState(a, s) + CountState(b, s)
    decreases |a|
  {
    if a != [] {
      assert (a + b)[0] == a[0];
      assert (a + b)[1..] == a[1..] + b;
      CountStateAppend(a[1..], b, s);
    } else {
      assert a + b == b;
    }
  }

  /** Every record is counted under exactly one state, so the five per-state
      counts add up to the number of records. */
  lemma {:induction false} EveryRecordCountedOnce(data: seq<ResourceWrapper>)
    ensures GetStatusCounts(data).Sum() + CountState(data, Unspecified) == |data|
    decreases |data|
  {
    if data != [] {
      EveryRecordCountedOnce(data[1..]);
    }
  }

  /** The four cards together count at most every record, and count every
      record exactly when none is unspecified. */
  lemma {:induction false} StatusCardsCoverData(data: seq<ResourceWrapper>)
    ensures GetStatusCounts(data).Sum() <= |data|
    ensures GetStatusCounts(data).Sum() == |data| <==> CountState(data, Unspecified) == 0
  {
    var c := GetStatusCounts(data);
    var unspecified := CountState(data, Unspecified);
    EveryRecordCountedOnce(data);
    if unspecified == 0 {
      assert c.Sum() == |data|;
    } else {
      assert c.Sum() < |data|;
    }
  }

  /** Counting around one removed record. */
  lemma {:induction false} CountStateRemove(d: seq<ResourceWrapper>, j: nat, s: ProcessingState)
    requires j < |d|
    ensures CountState(d, s) == CountState(d[..j] + d[j + 1..], s) + (if d[j].State() == s then 1 else 0)
  {
    assert d == d[..j] + ([d[j]] + d[j + 1..]);
    CountStateAppend(d[..j], [d[j]] + d[j + 1..], s);
    CountStateAppend([d[j]], d[j + 1..], s);
    CountStateAppend(d[..j], d[j + 1..], s);
  }

  /** Removing the same record from two permutations of each other leaves
      permutations of each other. */
  lemma {:induction false} MultisetRemove(d1: seq<ResourceWrapper>, d2: seq<ResourceWrapper>, j: nat)
    requires multiset(d1) == multiset(d2) && d1 != [] && j < |d2| && d2[j] == d1[0]
    ensures multiset(d1[1..]) == multiset(d2[..j] + d2[j + 1..])
  {
    var x := d1[0];
    assert d1 == [x] + d1[1..];
    assert d2 == d2[..j] + [x] + d2[j + 1..];
    assert multiset(d1[1..]) == multiset(d1) - multiset{x};
    assert multiset(d2[..j] + d2[j + 1..]) == multiset(d2) - multiset{x};
  }

  /** Reordering the records changes no count. */
  lemma {:induction false} CountStatePermutation(d1: seq<ResourceWrapper>, d2: seq<ResourceWrapper>, s: ProcessingState)
    requires multiset(d1) == multiset(d2)
    ensures CountState(d1, s) == CountState(d2, s)
    decreases |d1|
  {
    if d1 == [] {
      assert |d2| == |multiset(d2)| == 0;
    } else {
      assert d1[0] in multiset(d2);
      var j :| 0 <= j < |d2| && d2[j] == d1[0];
      MultisetRemove(d1, d2, j);
      CountStatePermutation(d1[1..], d2[..j] + d2[j + 1..], s);
      CountStateRemove(d2, j, s);
    }
  }

  // ---------------------------------------------------------------------
  // Unique patients

  /** `new Set(data.map(r => r.resource.metadata.identifier.patientId))`. */
  function PatientIds(data: seq<ResourceWrapper>): (ids: set<string>)
    ensures |ids| <= |data|
    ensures forall i | 0 <= i < |data| :: data[i].PatientId() in ids
    decreases |data|
  {
    if data == [] then {} else {data[0].PatientId()} + PatientIds(data[1..])
  }

  /** The set holds exactly the patient identifiers that occur in the data. */
  lemma {:induction false} PatientIdsAreTheIdsInData(data: seq<ResourceWrapper>)
    ensures PatientIds(data) == set r | r in data :: r.PatientId()
    decreases |data|
  {
    if data != [] {
      PatientIdsAreTheIdsInData(data[1..]);
      assert data == [data[0]] + data[1..];
    }
  }

  /** The unique-patient badge never exceeds the record count, and shows at
      least one patient when there is any record. */
  lemma {:induction false} UniquePatientsBounds(data: seq<ResourceWrapper>)
    ensures |PatientIds(data)| <= |data|
    ensures data != [] ==> |PatientIds(data)| >= 1
    decreases |data|
  {
    if data != [] {
      UniquePatientsBounds(data[1..]);
      var id := data[0].PatientId();
      if id in PatientIds(data[1..]) {
        assert PatientIds(data) == PatientIds(data[1..]);
      } else {
        assert |PatientIds(data)| == |PatientIds(data[1..])| + 1;
      }
    }
  }

  /** Reordering the records does not change the set of patients. */
  lemma {:induction false} UniquePatientsPermutation(d1: seq<ResourceWrapper>, d2: seq<ResourceWrapper>)
    requires multiset(d1) == multiset(d2)
    ensures PatientIds(d1) == PatientIds(d2)
  {
    PatientIdsAreTheIdsInData(d1);
    PatientIdsAreTheIdsInData(d2);
    forall r
      ensures r in d1 <==> r in d2
    {
      assert r in d1 <==> r in multiset(d1);
      assert r in d2 <==> r in multiset(d2);
    }
  }

  // ---------------------------------------------------------------------
  // Success rate and the quick-stats badges

  /** `Math.round(x)` for a non-negative `x`: the nearest integer, halves
      rounded up. */
  function Round(x: real): (n: int)
    requires x >= 0.0
    ensures n >= 0
    ensures n as real <= x + 0.5 < n as real + 1.0
  {
    (x + 0.5).Floor
  }

  /** `Math.round(completed / Math.max(data.length, 1) * 100)`: the share of
      completed records in percent, and 0 for no data without a division by
      zero. Real arithmetic stands in for floating point. */
  function SuccessRate(data: seq<ResourceWrapper>): (rate: int)
    ensures 0 <= rate <= 100
    ensures data == [] ==> rate == 0
    ensures data != [] && CountState(data, Completed) == |data| ==> rate == 100
    ensures CountState(data, Completed) == 0 ==> rate == 0
  {
    var completed := CountState(data, Completed);
    var denominator := if |data| > 1 then |data| else 1;
    var share := completed as real / denominator as real;
    ShareBounds(completed, denominator);
    Round(share * 100.0)
  }

  /** A part over a positive whole lies between 0 and 1, and is 1 for the
      whole itself. */
  lemma {:induction false} ShareBounds(part: nat, whole: nat)
    requires 0 < whole && part <= whole
    ensures 0.0 <= part as real / whole as real <= 1.0
    ensures part == whole ==> part as real / whole as real == 1.0
  {
    var share := part as real / whole as real;
    assert share * whole as real == part as real;
  }

  /** Reordering the records does not change the success rate. */
  lemma {:induction false} SuccessRatePermutation(d1: seq<ResourceWrapper>, d2: seq<ResourceWrapper>)
    requires multiset(d1) == multiset(d2)
    ensures SuccessRate(d1) == SuccessRate(d2)
  {
    CountStatePermutation(d1, d2, Completed);
    assert |d1| == |multiset(d1)| == |multiset(d2)| == |d2|;
  }

  /** The three badges: total records, unique patients, success rate. */
  datatype QuickStats = QuickStats(total: nat, uniquePatients: nat, successRate: int)

  function GetQuickStats(data: seq<ResourceWrapper>): (q: QuickStats)
    ensures q.total == |data|
    ensures q.uniquePatients == |PatientIds(data)|
    ensures q.successRate == SuccessRate(data)
  {
    QuickStats(|data|, |PatientIds(data)|, SuccessRate(data))
  }

  /** All the dashboard's figures are independent of the order of the
      records, and the badges stay within their bounds. */
  lemma {:induction false} DashboardFiguresOrderFree(d1: seq<ResourceWrapper>, d2: seq<ResourceWrapper>)
    requires multiset(d1) == multiset(d2)
    ensures GetStatusCounts(d1) == GetStatusCounts(d2)
    ensures GetQuickStats(d1) == GetQuickStats(d2)
  {
    CountStatePermutation(d1, d2, Completed);
    CountStatePermutation(d1, d2, Processing);
    CountStatePermutation(d1, d2, Failed);
    CountStatePermutation(d1, d2, NotStarted);
    UniquePatientsPermutation(d1, d2);
    SuccessRatePermutation(d1, d2);
    assert |d1| == |multiset(d1)| == |multiset(d2)| == |d2|;
  }
}
