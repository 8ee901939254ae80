/** `risk_window`: the search for the game's window among the open windows.
    Enumerating windows is an operating-system call; its outcome (the window
    titles in enumeration order, or a failure) is an input. */
module Window {
  import opened Results

  const RiskTitle: string := "RISK"

  /** The position of the first title equal to `title`, if any. */
  function FindTitle(titles: seq<string>, title: string): (r: Option<nat>)
    ensures r.Some? ==> r.value < |titles| && titles[r.value] == title
    ensures r.Some? ==> forall j :: 0 <= j < r.value ==> titles[j] != title
    ensures r.None? <==> title !in titles
  {
    if titles == [] then None
    else if titles[0] == title then Some(0)
    else match FindTitle(titles[1..], title)
      case None => None
      case Some(i) => Some(i + 1)
  }

  /** The first open window titled exactly "RISK"; a failed enumeration is
      reported the same way as no such window. */
  function RiskWindow(windows: Option<seq<string>>): (r: Option<nat>)
    ensures r.Some? <==> windows.Some? && RiskTitle in windows.value
    ensures r.Some? ==> r.value < |windows.value| && windows.value[r.value] == RiskTitle
    ensures r.Some? ==> forall j :: 0 <= j < r.value ==> windows.value[j] != RiskTitle
  {
    match windows
    case None => None
    case Some(titles) => FindTitle(titles, RiskTitle)
  }
}
