/**
 * `BuyboxStatus`: an accordion of buybox rows in which at most one row is
 * open at a time; an open row with alerts shows its alert panel.
 */
module BuyboxAccordion {
  import opened Options
  import JsText

  datatype Alert = Alert(kind: string, title: string, body: string, cta: string, link: string)

  /** `alertCount` is present only on rows whose status is not "optimized". */
  datatype Buybox = Buybox(id: int, name: string, status: string, alertCount: Option<nat>, alerts: seq<Alert>)

  /** The rows the page ships with; only the second has alerts. */
  const SampleBuyboxes: seq<Buybox> := [
    Buybox(1, "BuyBox_Name01_Test", "optimized", None, []),
    Buybox(2, "Phoenix Metro SFH", "alerts", Some(2), [
      Alert("stale_config", "6 months without updating:",
            "Please update your Buybox to get better recommendations.", "Edit Buybox", "/buybox/2/editor"),
      Alert("stale_leads", "6 months without updating your leads:",
            "Please update your leads to get better recommendations.", "Import leads", "/leads/import")]),
    Buybox(3, "Tucson Investment Props", "optimized", None, [])]

  /** `handleToggle(id)`: closes the row if it is the open one, else opens it. */
  function Toggled(expanded: Option<int>, id: int): (r: Option<int>)
    ensures expanded == Some(id) ==> r == None
    ensures expanded != Some(id) ==> r == Some(id)
  {
    if expanded == Some(id) then None else Some(id)
  }

  /** `handleKeyDown(e, id)` on row `id`: Enter toggles the row, Escape closes
      it only if it is the open one, and every other key is ignored. */
  function AfterKey(expanded: Option<int>, key: string, id: int): (r: Option<int>)
    ensures key == "Enter" ==> r == Toggled(expanded, id)
    ensures key == "Escape" && expanded == Some(id) ==> r == None
    ensures key == "Escape" && expanded != Some(id) ==> r == expanded
    ensures key != "Enter" && key != "Escape" ==> r == expanded
  {
    // a key is never both, so the second test reads the value at render time
    var afterEnter := if key == "Enter" then Toggled(expanded, id) else expanded;
    if key == "Escape" && expanded == Some(id) then None else afterEnter
  }

  /** The pill on the right of a row header: "Fully optimized" for an
      optimized row, else the row's alert count followed by " alerts". A
      missing count is an undefined JSX child, which React renders as
      nothing, so the pill then reads " alerts". */
  function StatusBadge(b: Buybox): (badge: string)
    ensures b.status == "optimized" <==> badge == "Fully optimized"
    ensures b.status != "optimized" && b.alertCount.Some? ==>
              badge == JsText.DecimalString(b.alertCount.value) + " alerts"
    ensures b.status != "optimized" && b.alertCount.None? ==> badge == " alerts"
  {
    if b.status == "optimized" then "Fully optimized"
    else
      var count := match b.alertCount
        case Some(n) => JsText.DecimalString(n)
        case None => "";
      var badge := count + " alerts";
      assert badge[|badge| - 1] == 's';
      badge
  }

  /** In the sample rows, every row that is not optimized carries a count
      equal to its number of alerts, and only those rows have alerts. */
  lemma SampleCountsMatchAlerts(i: nat)
    requires i < |SampleBuyboxes|
    ensures SampleBuyboxes[i].status != "optimized" <==> |SampleBuyboxes[i].alerts| > 0
    ensures SampleBuyboxes[i].status != "optimized" ==> SampleBuyboxes[i].alertCount == Some(|SampleBuyboxes[i].alerts|)
  {
  }

  /** Row `b` is drawn open (`aria-expanded`, rotated chevron). */
  predicate IsExpanded(expanded: Option<int>, b: Buybox) {
    expanded == Some(b.id)
  }

  /** `expandedId === buybox.id && buybox.alerts.length > 0`. */
  predicate AlertPanelShown(expanded: Option<int>, b: Buybox) {
    IsExpanded(expanded, b) && |b.alerts| > 0
  }

  /** Toggling the same row twice returns to the start exactly when that
      start was "none open" or "this row open". */
  lemma ToggleTwice(expanded: Option<int>, id: int)
    ensures Toggled(Toggled(expanded, id), id) == expanded <==> expanded == None || expanded == Some(id)
  {
  }

  /** Toggling another row moves the expansion to it. */
  lemma ToggleSwitches(open: int, id: int)
    requires open != id
    ensures Toggled(Some(open), id) == Some(id)
  {
  }

  predicate DistinctIds(rows: seq<Buybox>) {
    forall i, j :: 0 <= i < j < |rows| ==> rows[i].id != rows[j].id
  }

  /** How many rows are drawn open. */
  function ExpandedCount(rows: seq<Buybox>, expanded: Option<int>): nat
    decreases |rows|
  {
    if rows == [] then 0
    else (if IsExpanded(expanded, rows[0]) then 1 else 0) + ExpandedCount(rows[1..], expanded)
  }

  /** With distinct ids, at most one row is ever drawn open, and none when
      nothing is expanded. */
  lemma {:induction false} AtMostOneExpanded(rows: seq<Buybox>, expanded: Option<int>)
    requires DistinctIds(rows)
    ensures ExpandedCount(rows, expanded) <= 1
    ensures expanded == None ==> ExpandedCount(rows, expanded) == 0
    decreases |rows|
  {
    if rows != [] {
      assert DistinctIds(rows[1..]);
      AtMostOneExpanded(rows[1..], expanded);
      if IsExpanded(expanded, rows[0]) {
        NoneExpanded(rows[1..], expanded);
      }
    }
  }

  /** No row is open when the open id belongs to none of them. */
  lemma {:induction false} NoneExpanded(rows: seq<Buybox>, expanded: Option<int>)
    requires expanded.Some? && forall i :: 0 <= i < |rows| ==> rows[i].id != expanded.value
    ensures ExpandedCount(rows, expanded) == 0
    decreases |rows|
  {
    if rows != [] {
      NoneExpanded(rows[1..], expanded);
    }
  }

  /** How many rows show their alert panel. */
  function AlertPanelCount(rows: seq<Buybox>, expanded: Option<int>): nat
    decreases |rows|
  {
    if rows == [] then 0
    else (if AlertPanelShown(expanded, rows[0]) then 1 else 0) + AlertPanelCount(rows[1..], expanded)
  }

  /** Only an open row can show a panel, so there are never more panels than
      open rows. */
  lemma {:induction false} AlertPanelsWithinExpanded(rows: seq<Buybox>, expanded: Option<int>)
    ensures AlertPanelCount(rows, expanded) <= ExpandedCount(rows, expanded)
    decreases |rows|
  {
    if rows != [] {
      AlertPanelsWithinExpanded(rows[1..], expanded);
    }
  }

  /** A panel is shown exactly when some row is the open one and has alerts. */
  lemma {:induction false} AlertPanelCountPositive(rows: seq<Buybox>, expanded: Option<int>)
    ensures AlertPanelCount(rows, expanded) > 0 <==>
              exists i :: 0 <= i < |rows| && IsExpanded(expanded, rows[i]) && |rows[i].alerts| > 0
    decreases |rows|
  {
    if rows != [] {
      AlertPanelCountPositive(rows[1..], expanded);
      if AlertPanelCount(rows[1..], expanded) > 0 {
        var i :| 0 <= i < |rows[1..]| && IsExpanded(expanded, rows[1..][i]) && |rows[1..][i].alerts| > 0;
        assert IsExpanded(expanded, rows[i + 1]) && |rows[i + 1].alerts| > 0;
      }
      if exists i :: 0 <= i < |rows| && IsExpanded(expanded, rows[i]) && |rows[i].alerts| > 0 {
        var i :| 0 <= i < |rows| && IsExpanded(expanded, rows[i]) && |rows[i].alerts| > 0;
        if i > 0 {
          assert IsExpanded(expanded, rows[1..][i - 1]) && |rows[1..][i - 1].alerts| > 0;
        }
      }
    }
  }

  /** With distinct ids at most one alert panel is on screen, none when no
      row is open, and one exactly when the open row has alerts. */
  lemma AtMostOneAlertPanel(rows: seq<Buybox>, expanded: Option<int>)
    requires DistinctIds(rows)
    ensures AlertPanelCount(rows, expanded) <= 1
    ensures expanded == None ==> AlertPanelCount(rows, expanded) == 0
    ensures AlertPanelCount(rows, expanded) == 1 <==>
              exists i :: 0 <= i < |rows| && expanded == Some(rows[i].id) && |rows[i].alerts| > 0
  {
    AlertPanelsWithinExpanded(rows, expanded);
    AtMostOneExpanded(rows, expanded);
    AlertPanelCountPositive(rows, expanded);
  }

  /** Clicking or pressing Enter on a row shows its panel exactly when the
      row was closed and has alerts; Escape on the open row hides it. */
  lemma AlertPanelAfterKey(expanded: Option<int>, b: Buybox)
    ensures AlertPanelShown(AfterKey(expanded, "Enter", b.id), b) <==>
              expanded != Some(b.id) && |b.alerts| > 0
    ensures AlertPanelShown(Toggled(expanded, b.id), b) <==>
              expanded != Some(b.id) && |b.alerts| > 0
    ensures !AlertPanelShown(AfterKey(expanded, "Escape", b.id), b)
  {
  }

  /** In the sample rows, an alert panel can only be that of the second row. */
  lemma OnlyPhoenixShowsAlerts(expanded: Option<int>, i: nat)
    requires i < |SampleBuyboxes| && AlertPanelShown(expanded, SampleBuyboxes[i])
    ensures i == 1 && expanded == Some(2)
  {
  }

  /** The component instance. */
  class BuyboxStatus {
    var expandedId: Option<int>
    const buyboxes: seq<Buybox>

    constructor ()
      ensures expandedId == None && buyboxes == SampleBuyboxes
    {
      expandedId := None;
      buyboxes := SampleBuyboxes;
    }

    method HandleToggle(id: int)
      modifies this
      ensures expandedId == Toggled(old(expandedId), id)
    {
      expandedId := if expandedId == Some(id) then None else Some(id);
    }

    method HandleKeyDown(key: string, id: int)
      modifies this
      ensures expandedId == AfterKey(old(expandedId), key, id)
    {
      var wasExpanded := expandedId;
      if key == "Enter" {
        HandleToggle(id);
      }
      if key == "Escape" && wasExpanded == Some(id) {
        expandedId := None;
      }
    }

    /** Row `i` shows its alert panel; when it does, no other row with a
        different id shows one. */
    function ShowsAlerts(i: nat): (shown: bool)
      reads this
      requires i < |buyboxes|
      ensures shown <==> expandedId == Some(buyboxes[i].id) && buyboxes[i].alerts != []
      ensures shown ==> forall j :: 0 <= j < |buyboxes| && buyboxes[j].id != buyboxes[i].id ==>
                          !AlertPanelShown(expandedId, buyboxes[j])
    {
      AlertPanelShown(expandedId, buyboxes[i])
    }
  }
}
