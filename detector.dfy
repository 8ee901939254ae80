/** `scan`: the detection pipeline. The blacklist, the window list, the
    screenshot, the OCR engine and the engine's text for each player card
    are inputs (each either a value or the error its source reported);
    `fuzzywuzzy::fuzz::ratio` is the parameter `ratio`, about which nothing
    is assumed. */
module Detector {
  import opened Results
  import opened Text
  import opened Ocr
  import opened Blacklist
  import opened Geometry
  import opened Window

  /** A `u8`, the type of a similarity score. */
  type Byte = x: int | 0 <= x < 256

  /** A likely match: the blacklisted username (as written in the blacklist)
      and its similarity to one detected line. */
  datatype ScanInfo = ScanInfo(username: string, similarity: Byte)

  /** A detection is compared only when its normalised form is at least two
      bytes long in UTF-8 (`len()` counts bytes, not characters). */
  predicate Survives(detection: string) {
    Utf8Len(Normalize(detection)) > 1
  }

  /** The length test counts bytes: a single accented letter is compared,
      a single ASCII letter is not. */
  lemma SurvivesCountsBytes()
    ensures Survives("\U{e9}") && !Survives("a")
  {
    var accented := "\U{e9}";
    assert !StartsWith(accented, GeneralPrefix);
    LowercaseUnchanged(accented);
    RemoveSpacesUnchanged(accented);
    assert Normalize(accented) == accented;
    Utf8LenAtMostOne(accented);
    assert !StartsWith("a", GeneralPrefix);
    LowercaseUnchanged("a");
    RemoveSpacesUnchanged("a");
    Utf8LenAtMostOne("a");
  }

  /** The detections that are compared, in their original order. */
  function Surviving(detections: seq<string>): (r: seq<string>)
    ensures |r| <= |detections|
    ensures forall d :: d in r <==> d in detections && Survives(d)
  {
    if detections == [] then []
    else
      var last := detections[|detections| - 1];
      Surviving(detections[..|detections| - 1]) + (if Survives(last) then [last] else [])
  }

  /** The filter keeps order: the survivors of two runs of detections are
      those of the first run followed by those of the second. */
  lemma {:induction false} SurvivingAppend(a: seq<string>, b: seq<string>)
    ensures Surviving(a + b) == Surviving(a) + Surviving(b)
  {
    if b == [] {
      assert a + b == a;
      assert Surviving(a) + [] == Surviving(a);
    } else {
      var binit, last := b[..|b| - 1], b[|b| - 1];
      assert (a + b)[..|a + b| - 1] == a + binit;
      SurvivingAppend(a, binit);
      var tail := if Survives(last) then [last] else [];
      assert Surviving(a) + Surviving(binit) + tail == Surviving(a) + (Surviving(binit) + tail);
    }
  }

  /** The filter keeps every occurrence of a surviving detection and none of
      the others. */
  lemma {:induction false} SurvivingCounts(detections: seq<string>)
    ensures forall d :: (multiset(Surviving(detections))[d] ==
                         if Survives(d) then multiset(detections)[d] else 0)
  {
    if detections != [] {
      var init, last := detections[..|detections| - 1], detections[|detections| - 1];
      SurvivingCounts(init);
      assert detections == init + [last];
      assert multiset(detections) == multiset(init) + multiset{last};
      var tail := if Survives(last) then [last] else [];
      assert multiset(Surviving(detections)) == multiset(Surviving(init)) + multiset(tail);
    }
  }

  /** A single detection survives on its own exactly when it is long enough;
      with `SurvivingAppend` this determines the filter on every sequence. */
  lemma SurvivingSingle(d: string)
    ensures Surviving([d]) == if Survives(d) then [d] else []
  {
    assert [d][..0] == [];
  }

  /** The results for one detection: one per blacklist entry, in blacklist order. */
  function RowFor(detection: string, morons: seq<Moron>, ratio: (string, string) -> Byte): seq<ScanInfo> {
    seq(|morons|, k requires 0 <= k < |morons| =>
      ScanInfo(morons[k].username, ratio(Normalize(detection), Normalize(morons[k].username))))
  }

  /** The specification of the aggregation loops: the rows of all detections
      that survive the length filter, in detection order. */
  function Matches(detections: seq<string>, morons: seq<Moron>, ratio: (string, string) -> Byte): seq<ScanInfo> {
    if detections == [] then []
    else
      var last := detections[|detections| - 1];
      Matches(detections[..|detections| - 1], morons, ratio)
        + (if Survives(last) then RowFor(last, morons, ratio) else [])
  }

  /** The aggregation loops of `scan`: for every detection long enough after
      normalising, one result per blacklist entry. */
  method Aggregate(detections: seq<string>, morons: seq<Moron>, ratio: (string, string) -> Byte)
    returns (scans: seq<ScanInfo>)
    ensures scans == Matches(detections, morons, ratio)
  {
    scans := [];
    for i := 0 to |detections|
      invariant scans == Matches(detections[..i], morons, ratio)
    {
      ghost var row := RowFor(detections[i], morons, ratio);
      assert Matches(detections[..i + 1], morons, ratio)
          == scans + (if Survives(detections[i]) then row else []) by {
        assert detections[..i + 1][..i] == detections[..i];
      }
      var normalised := Normalize(detections[i]);
      if Utf8Len(normalised) <= 1 {
        continue;
      }
      ghost var before := scans;
      for j := 0 to |morons|
        invariant scans == before + row[..j]
      {
        var usernameNormalised := Normalize(morons[j].username);
        var similarity := ratio(normalised, usernameNormalised);
        scans := scans + [ScanInfo(morons[j].username, similarity)];
        assert row[..j + 1] == row[..j] + [row[j]];
      }
      assert row[..|morons|] == row;
    }
    assert detections[..|detections|] == detections;
  }

  /** The result count is (number of surviving detections) x (number of entries). */
  lemma {:induction false} MatchesLength(detections: seq<string>, morons: seq<Moron>, ratio: (string, string) -> Byte)
    ensures |Matches(detections, morons, ratio)| == |Surviving(detections)| * |morons|
  {
    if detections != [] {
      var init := detections[..|detections| - 1];
      MatchesLength(init, morons, ratio);
      assert (|Surviving(init)| + 1) * |morons| == |Surviving(init)| * |morons| + |morons|;
    }
  }

  /** Results are detection-major and entry-minor: result number p*|morons|+k
      pairs the p-th surviving detection with the k-th entry, carries the
      entry's username as written, and the ratio of the two normalised names. */
  lemma {:induction false} MatchesAt(detections: seq<string>, morons: seq<Moron>, ratio: (string, string) -> Byte, p: nat, k: nat)
    requires p < |Surviving(detections)| && k < |morons|
    ensures p * |morons| + k < |Matches(detections, morons, ratio)|
    ensures Matches(detections, morons, ratio)[p * |morons| + k]
         == ScanInfo(morons[k].username, ratio(Normalize(Surviving(detections)[p]), Normalize(morons[k].username)))
  {
    var init, last := detections[..|detections| - 1], detections[|detections| - 1];
    MatchesLength(init, morons, ratio);
    MatchesUnsnoc(detections, morons, ratio);
    if p < |Surviving(init)| {
      MatchesAt(init, morons, ratio, p, k);
    } else {
      assert Survives(last) && p == |Surviving(init)|;
      assert |Matches(init, morons, ratio)| == p * |morons|;
    }
  }

  /** The last detection contributes its row, if it survives, after those of the others. */
  lemma MatchesUnsnoc(detections: seq<string>, morons: seq<Moron>, ratio: (string, string) -> Byte)
    requires detections != []
    ensures var init, last := detections[..|detections| - 1], detections[|detections| - 1];
      Surviving(detections) == Surviving(init) + (if Survives(last) then [last] else []) &&
      Matches(detections, morons, ratio) ==
        Matches(init, morons, ratio) + (if Survives(last) then RowFor(last, morons, ratio) else [])
  {
  }

  /** Dropping the short detections beforehand changes nothing. */
  lemma {:induction false} MatchesOnlySurviving(detections: seq<string>, morons: seq<Moron>, ratio: (string, string) -> Byte)
    ensures Matches(Surviving(detections), morons, ratio) == Matches(detections, morons, ratio)
  {
    if detections != [] {
      var init := detections[..|detections| - 1];
      var last := detections[|detections| - 1];
      MatchesOnlySurviving(init, morons, ratio);
      var s := Surviving(detections);
      if Survives(last) {
        assert s == Surviving(init) + [last];
        assert s[..|s| - 1] == Surviving(init) && s[|s| - 1] == last;
      } else {
        assert s == Surviving(init);
      }
    }
  }

  /** A detection that normalises to at most one byte yields no result. */
  lemma ShortDetectionIgnored(detections: seq<string>, morons: seq<Moron>, ratio: (string, string) -> Byte, d: string)
    requires Utf8Len(Normalize(d)) <= 1
    ensures Matches(detections + [d], morons, ratio) == Matches(detections, morons, ratio)
  {
    assert (detections + [d])[..|detections|] == detections;
  }

  lemma GeneralBadActorSurvives()
    ensures Survives("General Bad Actor")
  {
    NormalizeExampleGeneralBadActor();
    Utf8LenAtMostOne("badactor");
  }

  /** A card reading "General Bad Actor" against the entry "Bad Actor": one
      result, under the entry's own name, scored as identical whenever the
      ratio scores identical non-empty keys 100. */
  lemma ExampleGeneralBadActor(ratio: (string, string) -> Byte)
    requires forall key :: |key| > 0 ==> ratio(key, key) == 100
    ensures Matches(["General Bad Actor"], [Moron("Bad Actor", "spam")], ratio)
         == [ScanInfo("Bad Actor", 100)]
  {
    var card, entry := "General Bad Actor", Moron("Bad Actor", "spam");
    calc {
      Matches([card], [entry], ratio);
    == { GeneralBadActorSurvives(); MatchesSingle(card, [entry], ratio); }
      RowFor(card, [entry], ratio);
    ==
      [ScanInfo(entry.username, ratio(Normalize(card), Normalize(entry.username)))];
    == { NormalizeExampleBadActor(); NormalizeExampleGeneralBadActor(); }
      [ScanInfo(entry.username, ratio("badactor", "badactor"))];
    ==
      [ScanInfo("Bad Actor", ratio("badactor", "badactor"))];
    }
  }

  /** A single surviving detection gives exactly its row. */
  lemma MatchesSingle(d: string, morons: seq<Moron>, ratio: (string, string) -> Byte)
    requires Survives(d)
    ensures Matches([d], morons, ratio) == RowFor(d, morons, ratio)
  {
    assert [d][..0] == [];
  }

  /** The specification of the slot loop, for any reader `detect` of the
      lines of one card's text: the lines of every card in slot order, or
      the error of the first card whose OCR failed. */
  function Collected(slots: seq<Result<string>>, detect: string -> seq<string>): Result<seq<string>> {
    if slots == [] then Ok([])
    else
      match Collected(slots[..|slots| - 1], detect)
      case Err(e) => Err(e)
      case Ok(lines) =>
        match slots[|slots| - 1]
        case Err(e) => Err(e)
        case Ok(text) => Ok(lines + detect(text))
  }

  /** The detections of `scan`: the lines `detect_text` reads from each card. */
  function Detections(slots: seq<Result<string>>): Result<seq<string>> {
    Collected(slots, DetectText)
  }

  lemma {:induction false} CollectedPrefixError(slots: seq<Result<string>>, detect: string -> seq<string>, n: nat)
    requires n <= |slots| && Collected(slots[..n], detect).Err?
    ensures Collected(slots, detect) == Collected(slots[..n], detect)
  {
    if n < |slots| {
      var init := slots[..|slots| - 1];
      assert init[..n] == slots[..n];
      CollectedPrefixError(init, detect, n);
    } else {
      assert slots[..n] == slots;
    }
  }

  /** The slot loop of `scan`: run `detect_text` on cards 0..5 in order,
      stopping at the first failure. */
  method CollectDetections(slots: seq<Result<string>>) returns (r: Result<seq<string>>)
    requires |slots| == CardCount
    ensures r == Detections(slots)
  {
    var detections: seq<string> := [];
    for i := 0 to CardCount
      invariant Collected(slots[..i], DetectText) == Ok(detections)
    {
      assert slots[..i + 1][..i] == slots[..i];
      match slots[i]
      case Err(e) =>
        CollectedPrefixError(slots, DetectText, i + 1);
        return Err(e);
      case Ok(text) =>
        var lines := DetectText(text);
        detections := detections + lines;
    }
    assert slots[..CardCount] == slots;
    r := Ok(detections);
  }

  /** Collection succeeds exactly when every card's OCR succeeded. */
  lemma {:induction false} CollectedOk(slots: seq<Result<string>>, detect: string -> seq<string>)
    ensures Collected(slots, detect).Ok? <==> forall i :: 0 <= i < |slots| ==> slots[i].Ok?
  {
    if slots != [] {
      var init := slots[..|slots| - 1];
      CollectedOk(init, detect);
      assert forall i :: 0 <= i < |init| ==> init[i] == slots[i];
    }
  }

  /** A failure is the error of the first card whose OCR failed. */
  lemma {:induction false} CollectedFirstError(slots: seq<Result<string>>, detect: string -> seq<string>)
    requires Collected(slots, detect).Err?
    ensures exists i :: 0 <= i < |slots| && slots[i] == Err(Collected(slots, detect).error) &&
                        (forall j :: 0 <= j < i ==> slots[j].Ok?)
  {
    var init := slots[..|slots| - 1];
    if Collected(init, detect).Err? {
      CollectedFirstError(init, detect);
      var i :| 0 <= i < |init| && init[i] == Err(Collected(init, detect).error) &&
        forall j :: 0 <= j < i ==> init[j].Ok?;
      assert Collected(slots, detect) == Collected(init, detect);
      assert forall j :: 0 <= j < i ==> slots[j] == init[j];
      assert slots[i] == Err(Collected(slots, detect).error);
    } else {
      CollectedOk(init, detect);
      var i := |init|;
      assert slots[i] == Err(Collected(slots, detect).error);
      assert forall j :: 0 <= j < i ==> slots[j] == init[j];
    }
  }

  /** Lines are concatenated in slot order: the lines of two runs of cards
      are those of the first run followed by those of the second. */
  lemma {:induction false} CollectedAppend(a: seq<Result<string>>, b: seq<Result<string>>, detect: string -> seq<string>)
    requires Collected(a, detect).Ok? && Collected(b, detect).Ok?
    ensures Collected(a + b, detect) == Ok(Collected(a, detect).value + Collected(b, detect).value)
  {
    if b == [] {
      assert a + b == a;
      assert Collected(a, detect).value + [] == Collected(a, detect).value;
    } else {
      var binit, text := b[..|b| - 1], b[|b| - 1].value;
      assert (a + b)[..|a + b| - 1] == a + binit;
      CollectedAppend(a, binit, detect);
      var da, db := Collected(a, detect).value, Collected(binit, detect).value;
      assert da + db + detect(text) == da + (db + detect(text));
    }
  }

  /** Detection succeeds exactly when every card's OCR succeeded. */
  lemma DetectionsOk(slots: seq<Result<string>>)
    ensures Detections(slots).Ok? <==> forall i :: 0 <= i < |slots| ==> slots[i].Ok?
  {
    CollectedOk(slots, DetectText);
  }

  /** Every collected detection is already normalised, so the second
      normalisation in the aggregation loop changes nothing. */
  lemma {:induction false} DetectionsNormalised(slots: seq<Result<string>>)
    requires Detections(slots).Ok?
    ensures forall d :: d in Detections(slots).value ==> Normalize(d) == d
  {
    if slots != [] {
      DetectionsNormalised(slots[..|slots| - 1]);
      DetectTextLines(slots[|slots| - 1].value);
    }
  }

  const BlacklistErrorPrefix: string := "Blacklist Error: "
  const NoWindowMessage: string := "Unable to find RISK window."

  /** Width and height of the captured window image. */
  datatype Screenshot = Screenshot(width: U32, height: U32)

  /** Every stage before the per-card OCR succeeded. */
  predicate ReachesOcr(blacklist: Result<seq<Moron>>, windows: Option<seq<string>>,
                       capture: Result<Screenshot>, engine: Result<()>)
  {
    blacklist.Ok? && RiskWindow(windows).Some? && capture.Ok? &&
    ListBox(capture.value.width, capture.value.height).Ok? && engine.Ok?
  }

  /** One scan, failing fast at the first stage that fails: the blacklist,
      the RISK window, the screenshot, the card layout, the OCR engine, the
      OCR of each card; otherwise the aggregated results. */
  method Scan(blacklist: Result<seq<Moron>>, windows: Option<seq<string>>,
              capture: Result<Screenshot>, engine: Result<()>,
              slots: seq<Result<string>>, ratio: (string, string) -> Byte)
    returns (r: Result<seq<ScanInfo>>)
    requires |slots| == CardCount
    ensures blacklist.Err? ==> r == Err(BlacklistErrorPrefix + blacklist.error)
    ensures blacklist.Ok? && RiskWindow(windows).None? ==> r == Err(NoWindowMessage)
    ensures blacklist.Ok? && RiskWindow(windows).Some? && capture.Err? ==> r == Err(capture.error)
    ensures blacklist.Ok? && RiskWindow(windows).Some? && capture.Ok? &&
            ListBox(capture.value.width, capture.value.height).Err? ==>
            r == Err(ListBox(capture.value.width, capture.value.height).error)
    ensures blacklist.Ok? && RiskWindow(windows).Some? && capture.Ok? &&
            ListBox(capture.value.width, capture.value.height).Ok? && engine.Err? ==>
            r == Err(engine.error)
    ensures ReachesOcr(blacklist, windows, capture, engine) && Detections(slots).Err? ==>
            r == Err(Detections(slots).error)
    ensures r.Ok? <==> (ReachesOcr(blacklist, windows, capture, engine) &&
                        forall i :: 0 <= i < |slots| ==> slots[i].Ok?)
    ensures r.Ok? ==> r.value == Matches(Detections(slots).value, blacklist.value, ratio)
  {
    DetectionsOk(slots);
    if blacklist.Err? {
      return Err(BlacklistErrorPrefix + blacklist.error);
    }
    var window := RiskWindow(windows);
    if window.None? {
      return Err(NoWindowMessage);
    }
    if capture.Err? {
      return Err(capture.error);
    }
    var layout := CropPlayerCards(capture.value.width, capture.value.height);
    if layout.Err? {
      return Err(layout.error);
    }
    if engine.Err? {
      return Err(engine.error);
    }
    var detections := CollectDetections(slots);
    if detections.Err? {
      return Err(detections.error);
    }
    var scans := Aggregate(detections.value, blacklist.value, ratio);
    return Ok(scans);
  }
}
