/** The full-screen switch of the feature table (`tablefullscreentoggle`),
    which both versions of the table share. */
module TableView {
  import opened Common

  /** The state keys the switch writes: `tableDiv`, `expandButtonLabel`,
      `icon` (unset in the current table until the first switch),
      `tablebuttontooltip`, `tablebuttoncolor` and `fullscreentableinfo`. */
  datatype Display = Display(tableDiv: string, expandButtonLabel: string, icon: Option<string>,
                             tooltip: string, buttonColor: bool, info: string)

  const FullscreenDiv := "tablefullscreen"

  const Expanded := Display(FullscreenDiv, "collapse", Some("fa fa-compress"), "Compress table", true, "Fullscreen Table and Query")

  const Collapsed := Display("", "fullscreen", Some("fa fa-expand"), "Expand table", false, "")

  /** The display of the current table before the first switch. */
  const CurrentInitial := Display("", "fullscreen", None, "Expand table", false, "")

  /** The display of the older table before the first switch. */
  const LegacyInitial := Collapsed

  /** One press of the switch: from the normal table to full screen and back;
      any other `tableDiv` leaves everything as it is. */
  function Toggle(d: Display): Display {
    if d.tableDiv == "" then Expanded
    else if d.tableDiv == FullscreenDiv then Collapsed
    else d
  }

  /** Pressing twice returns to the starting layout: exactly so from either
      settled layout, and from the current table's initial display up to the
      icon, which the first press sets. */
  lemma ToggleTwice(d: Display)
    ensures d == Expanded || d == Collapsed ==> Toggle(Toggle(d)) == d
    ensures d == CurrentInitial ==> Toggle(Toggle(d)) == d.(icon := Some("fa fa-expand"))
    ensures Toggle(d).tableDiv != d.tableDiv <==> d.tableDiv == "" || d.tableDiv == FullscreenDiv
  {
  }
}
