/** The resource table: its free-text search, the labels and placeholders of
    its cells, the truncation of long text, and the choice between the error
    card, the loading skeleton, the rows and the "no data" row. Sorting is done
    by a table library and is not part of this model; the rows appear in the
    order the search leaves them, which is what an empty sort state shows. */
module ResourceTable {
  import opened Wrappers
  import opened Resource
  import Text
  import SampleData

  // ---------------------------------------------------------------------
  // Status badge

  /** The badge text for a state; every value the switch does not list
      (here only `Unspecified`) reads "Unknown". */
  function StateLabel(s: ProcessingState): (badge: string)
    ensures badge == "Unknown" <==> s == Unspecified
  {
    match s
    case Completed => "Completed"
    case Processing => "Processing"
    case Failed => "Failed"
    case NotStarted => "Not Started"
    case _ => "Unknown"
  }

  /** No two states share a badge. */
  lemma {:induction false} StateLabelInjective(s: ProcessingState, t: ProcessingState)
    requires s != t
    ensures StateLabel(s) != StateLabel(t)
  {
  }

  // ---------------------------------------------------------------------
  // Long text

  /** The limit, in UTF-16 code units, since `length` and `slice` count
      those. */
  const MaxCellLength: nat := 48
  const Ellipsis: Text.CodeUnit := 0x2026

  /** What a text cell shows: the whole text, or a cut-off head (as code
      units, since the cut can fall inside a surrogate pair) with the whole
      text in a tooltip. */
  datatype TextCell = Whole(text: string) | Truncated(shown: seq<Text.CodeUnit>, tooltip: string) {
    /** The code units on screen. */
    function Shown(): seq<Text.CodeUnit> {
      match this
      case Whole(t) => Text.Utf16(t)
      case Truncated(s, _) => s
    }
  }

  /** Text of at most 48 code units (the empty text included) is shown as it
      is; longer text shows its first 48 code units and an ellipsis, so what
      is shown never exceeds 49 code units and always starts the original. */
  function TruncatedCell(text: string): (c: TextCell)
    ensures c.Whole? <==> |Text.Utf16(text)| <= MaxCellLength
    ensures c.Whole? ==> c.text == text
    ensures c.Truncated? ==> c.tooltip == text && |c.shown| == MaxCellLength + 1
                             && c.shown[..MaxCellLength] == Text.Utf16(text)[..MaxCellLength]
                             && c.shown[MaxCellLength] == Ellipsis
    ensures |c.Shown()| <= MaxCellLength + 1
  {
    var units := Text.Utf16(text);
    if text == [] || |units| <= MaxCellLength then Whole(text)
    else Truncated(units[..MaxCellLength] + [Ellipsis], text)
  }

  /** For text within the Basic Multilingual Plane the limit is simply 48
      characters, and the cut keeps the first 48 characters. */
  lemma {:induction false} PlainTextTruncation(text: string)
    requires forall i | 0 <= i < |text| :: !Text.IsAstral(text[i])
    ensures TruncatedCell(text).Whole? <==> |text| <= MaxCellLength
    ensures TruncatedCell(text).Truncated? ==>
              forall i | 0 <= i < MaxCellLength :: TruncatedCell(text).shown[i] == text[i] as int
  {
    Text.Utf16OfPlainText(text);
  }

  /** Thirty emoji are sixty code units: the cell cuts them to twenty-four
      emoji and an ellipsis. */
  lemma EmojiTextTruncated()
    ensures var emoji30 := seq(30, _ => '\U{1F600}');
            var c := TruncatedCell(emoji30);
            && c.Truncated?
            && c.shown == Text.Utf16(seq(24, _ => '\U{1F600}')) + [Ellipsis]
  {
    var e24, e6 := seq(24, _ => '\U{1F600}'), seq(6, _ => '\U{1F600}');
    var emoji30 := seq(30, _ => '\U{1F600}');
    assert emoji30 == e24 + e6;
    Text.Utf16OfAstralText(emoji30);
    Text.Utf16OfAstralText(e24);
    Text.Utf16Append(e24, e6);
    assert Text.Utf16(emoji30)[..MaxCellLength] == Text.Utf16(e24);
  }

  /** One letter before twenty-four emoji is forty-nine code units: the cut
      after 48 leaves the last emoji's high surrogate alone before the
      ellipsis. */
  lemma CutSplitsSurrogatePair()
    ensures var c := TruncatedCell("a" + seq(24, _ => '\U{1F600}'));
            c.Truncated? && Text.IsHighSurrogate(c.shown[MaxCellLength - 1])
  {
    var e23 := seq(23, _ => '\U{1F600}');
    var text := "a" + seq(24, _ => '\U{1F600}');
    assert text == ("a" + e23) + ['\U{1F600}'];
    Text.Utf16OfAstralText(e23);
    Text.Utf16Append("a", e23);
    Text.Utf16Append("a" + e23, ['\U{1F600}']);
    assert |Text.Utf16("a" + e23)| == 47;
    assert Text.Utf16(text)[47] == Text.CharUnits('\U{1F600}')[0];
  }

  // ---------------------------------------------------------------------
  // Cells with placeholders

  const PendingText: string := "Pending"
  const NoSummaryText: string := "No summary available"
  const NoDataText: string := "No resource data available."

  /** The "Processed" cell: the timestamp, or the "Pending" placeholder when
      the timestamp is missing or empty (an empty string is falsy). Date
      formatting is not modelled; the timestamp stands for its display. */
  datatype ProcessedCell = ProcessedAt(time: string) | Pending

  /** The "AI Summary" cell: the (truncated) summary, or a placeholder. */
  datatype SummaryCell = Summary(cell: TextCell) | NoSummary

  datatype RowView = RowView(
    patientId: string,
    resourceType: string,
    status: string,
    created: string,
    fetched: string,
    processed: ProcessedCell,
    description: TextCell,
    summary: SummaryCell)

  /** The cells of one row. A missing optional field is shown as a
      placeholder, never as an error. */
  function RenderRow(r: ResourceWrapper): (v: RowView)
    ensures v.processed.Pending? <==> r.resource.metadata.processedTime.GetOr("") == ""
    ensures v.processed.ProcessedAt? ==> r.resource.metadata.processedTime == Some(v.processed.time)
    ensures v.summary.NoSummary? <==> r.resource.aiSummary.GetOr("") == ""
    ensures v.summary.Summary? ==> v.summary.cell == TruncatedCell(r.resource.aiSummary.value)
    ensures v.description == TruncatedCell(r.resource.humanReadableStr)
    ensures v.status == StateLabel(r.State())
  {
    var m := r.resource.metadata;
    RowView(
      m.identifier.patientId,
      m.resourceType,
      StateLabel(m.state),
      m.createdTime,
      m.fetchTime,
      match m.processedTime
      case Some(t) => if t != "" then ProcessedAt(t) else Pending
      case None => Pending,
      TruncatedCell(r.resource.humanReadableStr),
      match r.resource.aiSummary
      case Some(s) => if s != "" then Summary(TruncatedCell(s)) else NoSummary
      case None => NoSummary)
  }

  // ---------------------------------------------------------------------
  // Search

  /** The query as matched: trimmed, then lower-cased. */
  function NormalizeQuery(search: string): (q: string)
    ensures q == [] <==> Text.AllSpace(search)
    ensures |q| <= |search|
    ensures forall i | 0 <= i < |q| :: !('A' <= q[i] <= 'Z')
  {
    Text.TrimEmptyIffBlank(search);
    Text.LowerIdempotent(Text.Trim(search));
    Text.Lower(Text.Trim(search))
  }

  /** A query that is already trimmed and lower case is its own normal form. */
  lemma {:induction false} AlreadyNormal(q: string)
    requires Text.Trim(q) == q && Text.Lower(q) == q
    ensures NormalizeQuery(q) == q
  {
  }

  /** A record matches a (normalised) query when the query occurs in one of
      its five searchable fields, each lower-cased; the state is matched on
      its enumeration string, and a missing summary counts as "". */
  predicate Matches(r: ResourceWrapper, q: string): (b: bool)
    ensures q == [] ==> b
  {
    var m := r.resource.metadata;
    Text.ContainsEmpty(Text.Lower(m.identifier.patientId));
    || Text.Contains(Text.Lower(m.identifier.patientId), q)
    || Text.Contains(Text.Lower(m.resourceType), q)
    || Text.Contains(Text.Lower(StateName(m.state)), q)
    || Text.Contains(Text.Lower(r.resource.humanReadableStr), q)
    || Text.Contains(Text.Lower(r.resource.aiSummary.GetOr("")), q)
  }

  /** The records that match `q`, in their original order. */
  function KeepMatching(data: seq<ResourceWrapper>, q: string): (kept: seq<ResourceWrapper>)
    ensures |kept| <= |data|
    ensures forall i | 0 <= i < |kept| :: kept[i] in data && Matches(kept[i], q)
  {
    if data == [] then []
    else (if Matches(data[0], q) then [data[0]] else []) + KeepMatching(data[1..], q)
  }

  /** The search box applied to `data`: a blank query keeps everything. */
  function FilteredData(data: seq<ResourceWrapper>, search: string): (shown: seq<ResourceWrapper>)
    ensures |shown| <= |data|
    ensures forall i | 0 <= i < |shown| :: shown[i] in data && Survives(shown[i], search)
  {
    if Text.Trim(search) != [] then KeepMatching(data, NormalizeQuery(search)) else data
  }

  /** Whether `r` survives the search `search`. */
  predicate Survives(r: ResourceWrapper, search: string) {
    Text.Trim(search) == [] || Matches(r, NormalizeQuery(search))
  }

  /** `xs` can be obtained from `ys` by dropping elements. */
  predicate IsSubsequence<T(==)>(xs: seq<T>, ys: seq<T>) {
    if xs == [] then true
    else if ys == [] then false
    else (xs[0] == ys[0] && IsSubsequence(xs[1..], ys[1..])) || IsSubsequence(xs, ys[1..])
  }

  lemma {:induction false} KeepMatchingIsSubsequence(data: seq<ResourceWrapper>, q: string)
    ensures IsSubsequence(KeepMatching(data, q), data)
  {
    if data != [] {
      KeepMatchingIsSubsequence(data[1..], q);
      var rest := KeepMatching(data[1..], q);
      if Matches(data[0], q) {
        assert KeepMatching(data, q) == [data[0]] + rest;
        assert ([data[0]] + rest)[1..] == rest;
      } else {
        assert KeepMatching(data, q) == rest;
      }
    }
  }

  lemma {:induction false} SubsequenceOfItself<T>(xs: seq<T>)
    ensures IsSubsequence(xs, xs)
  {
    if xs != [] {
      SubsequenceOfItself(xs[1..]);
    }
  }

  /** The search only drops records: what it returns is a subsequence of
      `data`, in the same relative order. */
  lemma {:induction false} FilterIsSubsequence(data: seq<ResourceWrapper>, search: string)
    ensures IsSubsequence(FilteredData(data, search), data)
  {
    if Text.Trim(search) != [] {
      KeepMatchingIsSubsequence(data, NormalizeQuery(search));
    } else {
      SubsequenceOfItself(data);
    }
  }

  lemma {:induction false} KeepMatchingCounts(data: seq<ResourceWrapper>, q: string, x: ResourceWrapper)
    ensures multiset(KeepMatching(data, q))[x] == if Matches(x, q) then multiset(data)[x] else 0
  {
    if data != [] {
      KeepMatchingCounts(data[1..], q, x);
      assert data == [data[0]] + data[1..];
    }
  }

  /** A record survives the search exactly when the normalised query occurs
      in one of its searchable fields (or the query is blank), and every
      surviving record keeps all its occurrences. */
  lemma {:induction false} FilterKeepsExactlyTheMatches(data: seq<ResourceWrapper>, search: string)
    ensures forall x :: multiset(FilteredData(data, search))[x]
                        == if Survives(x, search) then multiset(data)[x] else 0
  {
    if Text.Trim(search) != [] {
      forall x
        ensures multiset(FilteredData(data, search))[x]
                == if Survives(x, search) then multiset(data)[x] else 0
      {
        KeepMatchingCounts(data, NormalizeQuery(search), x);
      }
    }
  }

  /** A query that is empty or only whitespace leaves the data as it is. */
  lemma {:induction false} BlankQueryKeepsAll(data: seq<ResourceWrapper>, search: string)
    requires Text.AllSpace(search)
    ensures FilteredData(data, search) == data
  {
    Text.TrimEmptyIffBlank(search);
  }

  /** The search ignores the case of the query. */
  lemma {:induction false} FilterIgnoresCase(data: seq<ResourceWrapper>, s1: string, s2: string)
    requires Text.Lower(s1) == Text.Lower(s2)
    ensures FilteredData(data, s1) == FilteredData(data, s2)
  {
    Text.TrimLowerCommute(s1);
    Text.TrimLowerCommute(s2);
    assert NormalizeQuery(s1) == NormalizeQuery(s2);
    assert |Text.Trim(s1)| == |NormalizeQuery(s1)|;
    assert |Text.Trim(s2)| == |NormalizeQuery(s2)|;
  }

  /** The search ignores whitespace around the query. */
  lemma {:induction false} FilterIgnoresPadding(data: seq<ResourceWrapper>, w1: string, search: string, w2: string)
    requires Text.AllSpace(w1) && Text.AllSpace(w2)
    ensures FilteredData(data, w1 + search + w2) == FilteredData(data, search)
  {
    Text.TrimIgnoresPadding(w1, search, w2);
  }

  lemma {:induction false} KeepMatchingAll(data: seq<ResourceWrapper>, q: string)
    requires forall i | 0 <= i < |data| :: Matches(data[i], q)
    ensures KeepMatching(data, q) == data
  {
    if data != [] {
      KeepMatchingAll(data[1..], q);
      assert data == [data[0]] + data[1..];
    }
  }

  lemma LowerStatePrefix()
    ensures Text.Lower(StatePrefix) == "processing_state_"
  {
  }

  /** Lower-casing keeps the common prefix of the state strings. */
  lemma StateNameLowerPrefix(s: ProcessingState)
    ensures Text.IsPrefix(Text.Lower(StatePrefix), Text.Lower(StateName(s)))
  {
    var name := StateName(s);
    assert Text.Lower(name)[..|StatePrefix|] == Text.Lower(name[..|StatePrefix|]);
  }

  /** Every state string begins "PROCESSING_STATE_", so any query found in
      "processing_state_" keeps every record. */
  lemma {:induction false} StatePrefixQueryKeepsAll(data: seq<ResourceWrapper>, search: string)
    requires Text.Contains("processing_state_", NormalizeQuery(search))
    ensures FilteredData(data, search) == data
  {
    var q := NormalizeQuery(search);
    LowerStatePrefix();
    forall i | 0 <= i < |data|
      ensures Matches(data[i], q)
    {
      var name := StateName(data[i].State());
      StateNameLowerPrefix(data[i].State());
      Text.ContainsInPrefix(Text.Lower(StatePrefix), Text.Lower(name), q);
    }
    if Text.Trim(search) != [] {
      KeepMatchingAll(data, q);
    }
  }

  // ---------------------------------------------------------------------
  // What the table shows

  /** The line under the title. */
  function CountLabel(loading: bool, found: nat): (line: string)
    ensures loading ==> line == "Loading resource data..."
    ensures !loading ==> Text.IsPrefix(Text.NatToString(found), line)
                         && line[|Text.NatToString(found)|..] == " resources found"
  {
    if loading then "Loading resource data..." else Text.NatToString(found) + " resources found"
  }

  /** Once loaded, the number at the head of the count line reads back as the
      number of records found. */
  lemma {:induction false} CountLabelReadsBack(found: nat)
    ensures Text.ParseInt(CountLabel(false, found)) == Some(found)
  {
    Text.ParseIntOfIntToString(found, " resources found");
  }

  datatype Body = Skeleton | Rows(rows: seq<RowView>) | NoDataRow

  /** The whole component: an error card (with a retry button when a refresh
      callback is given), or the table card with its count line and body. */
  datatype View = ErrorCard(message: string, retry: bool) | TableCard(caption: string, body: Body)

  /** The view for the component's inputs. A non-empty error wins over
      loading, and loading over the rows; the count line counts the records
      the search leaves. */
  function Render(data: seq<ResourceWrapper>, loading: bool, error: Option<string>,
                  canRefresh: bool, search: string): (v: View)
    ensures v.ErrorCard? <==> error.GetOr("") != ""
    ensures v.ErrorCard? ==> v.message == error.value && v.retry == canRefresh
    ensures v.TableCard? ==> v.caption == CountLabel(loading, |FilteredData(data, search)|)
    ensures v.TableCard? ==> (v.body.Skeleton? <==> loading)
    ensures v.TableCard? && !loading ==> (v.body.NoDataRow? <==> FilteredData(data, search) == [])
    ensures v.TableCard? && v.body.Rows? ==>
              |v.body.rows| == |FilteredData(data, search)|
              && forall i | 0 <= i < |v.body.rows| :: v.body.rows[i] == RenderRow(FilteredData(data, search)[i])
  {
    var shown := FilteredData(data, search);
    if error.GetOr("") != "" then ErrorCard(error.value, canRefresh)
    else
      TableCard(CountLabel(loading, |shown|),
                if loading then Skeleton
                else if |shown| > 0 then Rows(seq(|shown|, i requires 0 <= i < |shown| => RenderRow(shown[i])))
                else NoDataRow)
  }

  /** An empty data set that is neither loading nor failed shows the
      "no data" row. */
  lemma {:induction false} EmptyDataShowsNoDataRow(search: string, canRefresh: bool)
    ensures Render([], false, None, canRefresh, search) == TableCard("0 resources found", NoDataRow)
  {
    ZeroWritten();
    assert FilteredData([], search) == [];
  }

  lemma ZeroWritten()
    ensures CountLabel(false, 0) == "0 resources found"
  {
    assert Text.NatToString(0) == "0";
  }

  // ---------------------------------------------------------------------
  // The sample records searched for "blood"

  /** No searchable field of `r` holds the letters "lo" next to each other. */
  predicate FieldsLackLo(r: ResourceWrapper) {
    var m := r.resource.metadata;
    && Text.LacksLowerPair(m.identifier.patientId, 'l', 'o')
    && Text.LacksLowerPair(m.resourceType, 'l', 'o')
    && Text.LacksLowerPair(StateName(m.state), 'l', 'o')
    && Text.LacksLowerPair(r.resource.humanReadableStr, 'l', 'o')
    && Text.LacksLowerPair(r.resource.aiSummary.GetOr(""), 'l', 'o')
  }

  lemma {:induction false} NoLoRulesOutBlood(r: ResourceWrapper)
    requires FieldsLackLo(r)
    ensures !Matches(r, "blood")
  {
    var m := r.resource.metadata;
    Text.PairRulesOut(m.identifier.patientId, "blood", 1, 'l', 'o');
    Text.PairRulesOut(m.resourceType, "blood", 1, 'l', 'o');
    Text.PairRulesOut(StateName(m.state), "blood", 1, 'l', 'o');
    Text.PairRulesOut(r.resource.humanReadableStr, "blood", 1, 'l', 'o');
    Text.PairRulesOut(r.resource.aiSummary.GetOr(""), "blood", 1, 'l', 'o');
  }

  // Each lemma below examines one short literal piece; together they cover
  // every searchable field of the three sample records that "blood" drops.

  lemma LoAbsentPatientTwo()
    ensures Text.LacksLowerPair("patient-002", 'l', 'o')
  {
  }

  lemma LoAbsentPatientThree()
    ensures Text.LacksLowerPair("patient-003", 'l', 'o')
  {
  }

  lemma LoAbsentPatientFour()
    ensures Text.LacksLowerPair("patient-004", 'l', 'o')
  {
  }

  lemma LoAbsentMedicationRequest()
    ensures Text.LacksLowerPair("MedicationRequest", 'l', 'o')
  {
  }

  lemma LoAbsentAllergyIntolerance()
    ensures Text.LacksLowerPair("AllergyIntolerance", 'l', 'o')
  {
  }

  lemma LoAbsentConditionType()
    ensures Text.LacksLowerPair("Condition", 'l', 'o')
  {
  }

  lemma LoAbsentStatePrefix()
    ensures Text.LacksLowerPair(StatePrefix, 'l', 'o')
  {
  }

  lemma LoAbsentStateSuffixes()
    ensures Text.LacksLowerPair("PROCESSING", 'l', 'o')
    ensures Text.LacksLowerPair("FAILED", 'l', 'o')
    ensures Text.LacksLowerPair("COMPLETED", 'l', 'o')
  {
  }

  lemma {:induction false} LoAbsentFromStateName(s: ProcessingState)
    requires s in {Processing, Failed, Completed}
    ensures Text.LacksLowerPair(StateName(s), 'l', 'o')
  {
    LoAbsentStatePrefix();
    LoAbsentStateSuffixes();
    Text.LacksLowerPairAppend(StatePrefix, StateSuffix(s), 'l', 'o');
  }

  lemma LoAbsentPrescription()
    ensures Text.LacksLowerPair("Prescription ", 'l', 'o')
  {
  }

  lemma LoAbsentForLisinopril()
    ensures Text.LacksLowerPair("for Lisinopril ", 'l', 'o')
  {
  }

  lemma LoAbsentOnceDaily()
    ensures Text.LacksLowerPair("10mg once daily ", 'l', 'o')
  {
  }

  lemma LoAbsentForHypertension()
    ensures Text.LacksLowerPair("for hypertension", 'l', 'o')
  {
  }

  lemma LoAbsentManagement()
    ensures Text.LacksLowerPair(" management", 'l', 'o')
  {
  }

  lemma LoAbsentFromSecondRecord()
    ensures Text.LacksLowerPair(SampleData.Records[1].resource.humanReadableStr, 'l', 'o')
  {
    var a, b, c, d, e :=
      "Prescription ", "for Lisinopril ", "10mg once daily ",
      "for hypertension", " management";
    LoAbsentPrescription();
    LoAbsentForLisinopril();
    LoAbsentOnceDaily();
    LoAbsentForHypertension();
    LoAbsentManagement();
    Text.LacksLowerPairAppend(a, b, 'l', 'o');
    Text.LacksLowerPairAppend(a + b, c, 'l', 'o');
    Text.LacksLowerPairAppend(a + b + c, d, 'l', 'o');
    Text.LacksLowerPairAppend(a + b + c + d, e, 'l', 'o');
  }

  lemma LoAbsentPatientReported()
    ensures Text.LacksLowerPair("Patient reported", 'l', 'o')
  {
  }

  lemma LoAbsentAllergyTo()
    ensures Text.LacksLowerPair(" allergy to ", 'l', 'o')
  {
  }

  lemma LoAbsentPenicillin()
    ensures Text.LacksLowerPair("penicillin with ", 'l', 'o')
  {
  }

  lemma LoAbsentSevereReaction()
    ensures Text.LacksLowerPair("severe reaction ", 'l', 'o')
  {
  }

  lemma LoAbsentHistory()
    ensures Text.LacksLowerPair("history", 'l', 'o')
  {
  }

  lemma LoAbsentFromThirdRecord()
    ensures Text.LacksLowerPair(SampleData.Records[2].resource.humanReadableStr, 'l', 'o')
  {
    var a, b, c, d, e :=
      "Patient reported", " allergy to ", "penicillin with ",
      "severe reaction ", "history";
    LoAbsentPatientReported();
    LoAbsentAllergyTo();
    LoAbsentPenicillin();
    LoAbsentSevereReaction();
    LoAbsentHistory();
    Text.LacksLowerPairAppend(a, b, 'l', 'o');
    Text.LacksLowerPairAppend(a + b, c, 'l', 'o');
    Text.LacksLowerPairAppend(a + b + c, d, 'l', 'o');
    Text.LacksLowerPairAppend(a + b + c + d, e, 'l', 'o');
  }

  lemma LoAbsentDiagnosed()
    ensures Text.LacksLowerPair("Diagnosed with ", 'l', 'o')
  {
  }

  lemma LoAbsentTypeTwo()
    ensures Text.LacksLowerPair("Type 2 Diabetes ", 'l', 'o')
  {
  }

  lemma LoAbsentMellitus()
    ensures Text.LacksLowerPair("Mellitus, well-", 'l', 'o')
  {
  }

  lemma LoAbsentControlled()
    ensures Text.LacksLowerPair("controlled with ", 'l', 'o')
  {
  }

  lemma LoAbsentMedication()
    ensures Text.LacksLowerPair("medication", 'l', 'o')
  {
  }

  lemma LoAbsentFromFifthDescription()
    ensures Text.LacksLowerPair(SampleData.Records[4].resource.humanReadableStr, 'l', 'o')
  {
    var a, b, c, d, e :=
      "Diagnosed with ", "Type 2 Diabetes ", "Mellitus, well-",
      "controlled with ", "medication";
    LoAbsentDiagnosed();
    LoAbsentTypeTwo();
    LoAbsentMellitus();
    LoAbsentControlled();
    LoAbsentMedication();
    Text.LacksLowerPairAppend(a, b, 'l', 'o');
    Text.LacksLowerPairAppend(a + b, c, 'l', 'o');
    Text.LacksLowerPairAppend(a + b + c, d, 'l', 'o');
    Text.LacksLowerPairAppend(a + b + c + d, e, 'l', 'o');
  }

  lemma LoAbsentChronic()
    ensures Text.LacksLowerPair("Chronic ", 'l', 'o')
  {
  }

  lemma LoAbsentCondition()
    ensures Text.LacksLowerPair("condition ", 'l', 'o')
  {
  }

  lemma LoAbsentManagedWith()
    ensures Text.LacksLowerPair("managed with ", 'l', 'o')
  {
  }

  lemma LoAbsentMetformin()
    ensures Text.LacksLowerPair("metformin ", 'l', 'o')
  {
  }

  lemma LoAbsentTherapy()
    ensures Text.LacksLowerPair("therapy, ", 'l', 'o')
  {
  }

  lemma LoAbsentPatientShows()
    ensures Text.LacksLowerPair("patient shows ", 'l', 'o')
  {
  }

  lemma LoAbsentGoodCompliance()
    ensures Text.LacksLowerPair("good compliance ", 'l', 'o')
  {
  }

  lemma LoAbsentAndStable()
    ensures Text.LacksLowerPair("and stable ", 'l', 'o')
  {
  }

  lemma LoAbsentGlucose()
    ensures Text.LacksLowerPair("glucose levels.", 'l', 'o')
  {
  }

  lemma LoAbsentFromFifthSummary()
    ensures Text.LacksLowerPair(SampleData.Records[4].resource.aiSummary.GetOr(""), 'l', 'o')
  {
    var a, b, c, d, e, f, g, h, i :=
      "Chronic ", "condition ", "managed with ", "metformin ", "therapy, ",
      "patient shows ", "good compliance ", "and stable ", "glucose levels.";
    LoAbsentChronic();
    LoAbsentCondition();
    LoAbsentManagedWith();
    LoAbsentMetformin();
    LoAbsentTherapy();
    LoAbsentPatientShows();
    LoAbsentGoodCompliance();
    LoAbsentAndStable();
    LoAbsentGlucose();
    Text.LacksLowerPairAppend(a, b, 'l', 'o');
    Text.LacksLowerPairAppend(a + b, c, 'l', 'o');
    Text.LacksLowerPairAppend(a + b + c, d, 'l', 'o');
    Text.LacksLowerPairAppend(a + b + c + d, e, 'l', 'o');
    Text.LacksLowerPairAppend(a + b + c + d + e, f, 'l', 'o');
    Text.LacksLowerPairAppend(a + b + c + d + e + f, g, 'l', 'o');
    Text.LacksLowerPairAppend(a + b + c + d + e + f + g, h, 'l', 'o');
    Text.LacksLowerPairAppend(a + b + c + d + e + f + g + h, i, 'l', 'o');
  }

  lemma SampleRecordsLackLo()
    ensures FieldsLackLo(SampleData.Records[1])
    ensures FieldsLackLo(SampleData.Records[2])
    ensures FieldsLackLo(SampleData.Records[4])
  {
    LoAbsentPatientTwo();
    LoAbsentPatientThree();
    LoAbsentPatientFour();
    LoAbsentMedicationRequest();
    LoAbsentAllergyIntolerance();
    LoAbsentConditionType();
    LoAbsentFromStateName(Processing);
    LoAbsentFromStateName(Failed);
    LoAbsentFromStateName(Completed);
    LoAbsentFromSecondRecord();
    LoAbsentFromThirdRecord();
    LoAbsentFromFifthDescription();
    LoAbsentFromFifthSummary();
  }

  lemma BloodFound()
    ensures Text.Lower("Blood") == "blood" && Text.Lower("blood") == "blood"
    ensures Text.Contains("blood", "blood")
  {
    assert Text.OccursAt("blood", "blood", 0);
  }

  /** The first and the fourth records mention blood in their descriptions. */
  lemma SampleBloodMatches()
    ensures Matches(SampleData.Records[0], "blood")
    ensures Matches(SampleData.Records[3], "blood")
  {
    BloodFound();
    var rest0 := " pressure measurement: 120/80 mmHg recorded on January 15, 2024";
    Text.LowerAppend("Blood", rest0);
    assert [] + "blood" + Text.Lower(rest0) == "blood" + Text.Lower(rest0);
    Text.ContainsInMiddle([], "blood", Text.Lower(rest0), "blood");
    var rest3 := " count (CBC) laboratory results pending analysis";
    Text.LowerAppend("Complete " + "blood", rest3);
    Text.LowerAppend("Complete ", "blood");
    Text.ContainsInMiddle(Text.Lower("Complete "), "blood", Text.Lower(rest3), "blood");
  }

  /** On the five sample records the query "blood" keeps exactly the first
      and the fourth. */
  lemma SampleBloodSearch()
    ensures FilteredData(SampleData.Records, "blood") == [SampleData.Records[0], SampleData.Records[3]]
  {
    SampleBloodKeeps();
    BloodIsNormal();
  }

  lemma BloodTrimmed()
    ensures Text.Trim("blood") == "blood"
  {
  }

  lemma BloodLowered()
    ensures Text.Lower("blood") == "blood"
    ensures Text.Lower("BLOOD") == "blood"
  {
  }

  lemma BloodIsNormal()
    ensures Text.Trim("blood") != [] && NormalizeQuery("blood") == "blood"
  {
    BloodTrimmed();
    BloodLowered();
    AlreadyNormal("blood");
  }

  lemma BloodPadded()
    ensures "  blood " == "  " + "blood" + " "
    ensures Text.AllSpace("  ") && Text.AllSpace(" ")
  {
  }

  /** "BLOOD" and "  blood " find what "blood" finds. */
  lemma SampleQueryVariants()
    ensures FilteredData(SampleData.Records, "BLOOD") == FilteredData(SampleData.Records, "blood")
    ensures FilteredData(SampleData.Records, "  blood ") == FilteredData(SampleData.Records, "blood")
  {
    BloodLowered();
    FilterIgnoresCase(SampleData.Records, "BLOOD", "blood");
    BloodPadded();
    FilterIgnoresPadding(SampleData.Records, "  ", "blood", " ");
  }

  /** After the search for "blood" the count line reads "2 resources found". */
  lemma SampleBloodCaption()
    ensures Render(SampleData.Records, false, None, true, "blood").caption == "2 resources found"
  {
    SampleBloodSearch();
    TwoWritten();
  }

  lemma TwoWritten()
    ensures Text.NatToString(2) + " resources found" == "2 resources found"
  {
  }

  /** Over five records, a query that matches exactly the first and the
      fourth keeps exactly those two. */
  lemma {:induction false} KeepFirstAndFourth(data: seq<ResourceWrapper>, q: string)
    requires |data| == 5
    requires Matches(data[0], q) && !Matches(data[1], q) && !Matches(data[2], q)
    requires Matches(data[3], q) && !Matches(data[4], q)
    ensures KeepMatching(data, q) == [data[0], data[3]]
  {
    assert data[4..][1..] == [];
    assert KeepMatching(data[4..], q) == [];
    assert data[3..][1..] == data[4..];
    assert KeepMatching(data[3..], q) == [data[3]];
    assert data[2..][1..] == data[3..];
    assert KeepMatching(data[2..], q) == [data[3]];
    assert data[1..][1..] == data[2..];
    assert KeepMatching(data[1..], q) == [data[3]];
  }

  lemma SampleBloodKeeps()
    ensures KeepMatching(SampleData.Records, "blood") == [SampleData.Records[0], SampleData.Records[3]]
  {
    var data := SampleData.Records;
    SampleBloodMatches();
    SampleRecordsLackLo();
    NoLoRulesOutBlood(data[1]);
    NoLoRulesOutBlood(data[2]);
    NoLoRulesOutBlood(data[4]);
    KeepFirstAndFourth(data, "blood");
  }
}
