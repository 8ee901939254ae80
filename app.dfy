/** The application state and the choice of what the scan row shows. Widget
    building, colours, fonts and padding are not modelled; the outcomes of the
    external calls made while handling a message are inputs. */
module App {
  import opened Results
  import opened Detector

  /** Only results at least this similar are shown. */
  const SimilarityThreshold: int := 70

  const ScanningMessage: string := "Scanning - Please wait."
  const NoBlacklistPathMessage: string := "Unable to find the path to the blacklist."

  datatype Message = OpenBlacklistFile | OpenSupportUrl | ScanRisk

  /** What the external calls reported while one message was handled:
      the blacklist path lookup, opening a file or URL with the desktop's
      default program, and the scan. */
  datatype Effects = Effects(blacklistPath: Option<string>, openResult: Result<()>, scanned: Result<seq<ScanInfo>>)

  class BlitzApp {
    var error: Option<string>
    var scans: seq<ScanInfo>
    var doneInitialScan: bool

    /** Results exist only once a scan has succeeded. */
    ghost predicate Valid()
      reads this
    {
      !doneInitialScan ==> scans == []
    }

    constructor ()
      ensures Valid()
      ensures error == None && scans == [] && !doneInitialScan
    {
      error := None;
      scans := [];
      doneInitialScan := false;
    }

    method Update(message: Message, effects: Effects)
      requires Valid()
      modifies this
      ensures Valid()
      // only a scan touches the results
      ensures message != ScanRisk ==> scans == old(scans) && doneInitialScan == old(doneInitialScan)
      ensures message == OpenBlacklistFile ==>
        error == match effects.blacklistPath
                 case None => Some(NoBlacklistPathMessage)
                 case Some(_) => if effects.openResult.Err? then Some(effects.openResult.error) else old(error)
      ensures message == OpenSupportUrl ==>
        error == if effects.openResult.Err? then Some(effects.openResult.error) else old(error)
      ensures message == ScanRisk && effects.scanned.Ok? ==>
        scans == effects.scanned.value && doneInitialScan && error == None
      ensures message == ScanRisk && effects.scanned.Err? ==>
        scans == old(scans) && doneInitialScan == old(doneInitialScan) && error == Some(effects.scanned.error)
    {
      match message
      case OpenBlacklistFile =>
        match effects.blacklistPath {
          case Some(_) =>
            if effects.openResult.Err? {
              error := Some(effects.openResult.error);
            }
          case None =>
            error := Some(NoBlacklistPathMessage);
        }
      case OpenSupportUrl =>
        if effects.openResult.Err? {
          error := Some(effects.openResult.error);
        }
      case ScanRisk =>
        error := Some(ScanningMessage);
        match effects.scanned {
          case Ok(results) =>
            scans := results;
            doneInitialScan := true;
            error := None;
          case Err(e) =>
            error := Some(e);
        }
    }
  }

  predicate Similar(s: ScanInfo) {
    s.similarity >= SimilarityThreshold
  }

  /** The `filter(|s| s.similarity >= 70)` of the scan row, order kept. */
  function SimilarScans(scans: seq<ScanInfo>): (r: seq<ScanInfo>)
    ensures forall x :: x in r <==> x in scans && Similar(x)
    ensures forall x :: multiset(r)[x] == if Similar(x) then multiset(scans)[x] else 0
  {
    if scans == [] then []
    else
      assert scans == [scans[0]] + scans[1..];
      (if Similar(scans[0]) then [scans[0]] else []) + SimilarScans(scans[1..])
  }

  /** The results of `s` with similarity `v`, in their order in `s`. */
  function WithSimilarity(s: seq<ScanInfo>, v: int): seq<ScanInfo> {
    if s == [] then []
    else (if s[0].similarity == v then [s[0]] else []) + WithSimilarity(s[1..], v)
  }

  predicate SortedDescending(s: seq<ScanInfo>) {
    forall i, j :: 0 <= i < j < |s| ==> s[i].similarity >= s[j].similarity
  }

  /** Puts `x` before the first element that is not more similar than it. */
  function Insert(x: ScanInfo, s: seq<ScanInfo>): seq<ScanInfo> {
    if s == [] || s[0].similarity <= x.similarity then [x] + s
    else [s[0]] + Insert(x, s[1..])
  }

  /** `sort_by(|a, b| b.similarity.cmp(&a.similarity))`: a stable sort by
      descending similarity. */
  function SortBySimilarity(s: seq<ScanInfo>): seq<ScanInfo> {
    if s == [] then [] else Insert(s[0], SortBySimilarity(s[1..]))
  }

  lemma {:induction false} InsertPermutes(x: ScanInfo, s: seq<ScanInfo>)
    ensures multiset(Insert(x, s)) == multiset(s) + multiset{x}
  {
    if s != [] && s[0].similarity > x.similarity {
      InsertPermutes(x, s[1..]);
      assert Insert(x, s) == [s[0]] + Insert(x, s[1..]);
      assert s == [s[0]] + s[1..];
      assert multiset(s) == multiset{s[0]} + multiset(s[1..]);
    }
  }

  lemma {:induction false} InsertSorted(x: ScanInfo, s: seq<ScanInfo>)
    requires SortedDescending(s)
    ensures SortedDescending(Insert(x, s))
  {
    if s != [] && s[0].similarity > x.similarity {
      InsertSorted(x, s[1..]);
      InsertPermutes(x, s[1..]);
      var rest := Insert(x, s[1..]);
      forall j | 0 <= j < |rest| ensures s[0].similarity >= rest[j].similarity {
        assert rest[j] in multiset(rest);
        if rest[j] != x {
          assert rest[j] in s[1..];
        }
      }
    }
  }

  /** Inserting keeps every other element's place relative to those of equal similarity. */
  lemma {:induction false} InsertStable(x: ScanInfo, s: seq<ScanInfo>, v: int)
    ensures WithSimilarity(Insert(x, s), v) == (if x.similarity == v then [x] else []) + WithSimilarity(s, v)
  {
    if s == [] || s[0].similarity <= x.similarity {
      WithSimilarityAppend([x], s, v);
    } else {
      var rest, tail := Insert(x, s[1..]), s[1..];
      var head := WithSimilarity([s[0]], v);
      var mid := if x.similarity == v then [x] else [];
      calc {
        WithSimilarity(Insert(x, s), v);
        WithSimilarity([s[0]] + rest, v);
      == { WithSimilarityAppend([s[0]], rest, v); }
        head + WithSimilarity(rest, v);
      == { InsertStable(x, tail, v); }
        head + (mid + WithSimilarity(tail, v));
      == { WithSimilaritySingle(s[0], v); }
        mid + (head + WithSimilarity(tail, v));
      == { WithSimilarityAppend([s[0]], tail, v); }
        mid + WithSimilarity([s[0]] + tail, v);
      == { assert s == [s[0]] + tail; }
        mid + WithSimilarity(s, v);
      }
    }
  }

  /** The sort orders by non-increasing similarity, drops and adds nothing,
      and keeps the scan order among results of equal similarity. */
  lemma {:induction false} SortBySimilarityCorrect(s: seq<ScanInfo>)
    ensures SortedDescending(SortBySimilarity(s))
    ensures multiset(SortBySimilarity(s)) == multiset(s)
    ensures forall v :: WithSimilarity(SortBySimilarity(s), v) == WithSimilarity(s, v)
  {
    if s != [] {
      var rest := SortBySimilarity(s[1..]);
      SortBySimilarityCorrect(s[1..]);
      InsertSorted(s[0], rest);
      InsertPermutes(s[0], rest);
      assert s == [s[0]] + s[1..];
      forall v ensures WithSimilarity(SortBySimilarity(s), v) == WithSimilarity(s, v) {
        InsertStable(s[0], rest, v);
      }
    }
  }

  /** Filtering keeps, for a shown similarity, exactly the results with it, in order. */
  lemma {:induction false} SimilarScansStable(s: seq<ScanInfo>, v: int)
    ensures WithSimilarity(SimilarScans(s), v) == if v >= SimilarityThreshold then WithSimilarity(s, v) else []
  {
    if s != [] {
      SimilarScansStable(s[1..], v);
      var head := if Similar(s[0]) then [s[0]] else [];
      WithSimilarityAppend(head, SimilarScans(s[1..]), v);
    }
  }

  lemma WithSimilaritySingle(x: ScanInfo, v: int)
    ensures WithSimilarity([x], v) == if x.similarity == v then [x] else []
  {
    assert [x][1..] == [];
    var h := if x.similarity == v then [x] else [];
    assert h + [] == h;
  }

  lemma {:induction false} WithSimilarityAppend(a: seq<ScanInfo>, b: seq<ScanInfo>, v: int)
    ensures WithSimilarity(a + b, v) == WithSimilarity(a, v) + WithSimilarity(b, v)
  {
    if a == [] {
      assert a + b == b;
    } else {
      assert (a + b)[1..] == a[1..] + b;
      WithSimilarityAppend(a[1..], b, v);
    }
  }

  /** What the scan row shows. */
  datatype ScanView = Prompt | NoMorons | Listing(entries: seq<ScanInfo>)

  /** `create_scan_row`: a prompt before the first successful scan, a
      "no morons" note when no result reaches the threshold, and otherwise
      the results that reach it, most similar first. */
  function ScanRow(doneInitialScan: bool, scans: seq<ScanInfo>): (v: ScanView)
    ensures v == Prompt <==> !doneInitialScan
    ensures v == NoMorons <==> doneInitialScan && forall i :: 0 <= i < |scans| ==> !Similar(scans[i])
    ensures v.Listing? ==> v.entries != [] && SortedDescending(v.entries)
    ensures v.Listing? ==> forall x :: multiset(v.entries)[x] == if Similar(x) then multiset(scans)[x] else 0
    ensures v.Listing? ==> forall value :: (WithSimilarity(v.entries, value) ==
      if value >= SimilarityThreshold then WithSimilarity(scans, value) else [])
  {
    if !doneInitialScan then Prompt
    else
      var similar := SimilarScans(scans);
      if similar == [] then
        assert forall i :: 0 <= i < |scans| ==> !Similar(scans[i]) by {
          forall i | 0 <= i < |scans| ensures !Similar(scans[i]) {
            assert scans[i] in scans;
          }
        }
        NoMorons
      else
        SortBySimilarityCorrect(similar);
        assert forall value :: (WithSimilarity(similar, value) ==
          if value >= SimilarityThreshold then WithSimilarity(scans, value) else []) by {
          forall value {
            SimilarScansStable(scans, value);
          }
        }
        assert multiset(SortBySimilarity(similar)) == multiset(similar);
        assert |SortBySimilarity(similar)| == |similar|;
        Listing(SortBySimilarity(similar))
  }
}
