/** The results page reducer: which view is active, which measurement is
    selected, what the 3D view shows, and the filter panel and backdrop.

    The 3D view state is a JavaScript object whose keys come and go (a
    click configuration is spread into it, and showing fit zones replaces
    it), so it is kept as a map from property name to value. */
module ResultsView {
  import opened JsValues

  datatype ActiveView = FootwearView | MeasurementView

  type ViewState = map<string, Value>

  datatype State = State(
    activeView: ActiveView,
    activeMeasurement: string,
    backdropOn: Value,
    threeViewState: ViewState,
    showFilters: bool)

  datatype Event =
    | UpdateActiveView(view: ActiveView)
    | SetActiveMeasurement(id: string, clickConfig: map<string, Value>, measurementNotes: Value)
    | UpdateFitZones(fitZoneClassifications: Value)
    | OpenFootwearFilters
    | CloseFootwearFilters
      /** Also clears the stored customer details and navigates away; those
          effects are outside the state. */
    | RestartSignup(urlPrefix: string)
    | OpenBackdrop
    | CloseBackdrop
    | Unknown(name: string)

  const NoMeasurement: string := "none"

  /** The 3D view state for switching views: default colours, no fit zones
      or ruler, the initial camera, both feet. */
  const DefaultViewState: ViewState := map[
    "colormode" := Str("default"),
    "fitZones" := Null,
    "threeRulerType" := Null,
    "cameraViewName" := Str("initial_beta"),
    "showLeftFoot" := Bool(true),
    "showRightFoot" := Bool(true)
  ]

  /** resultsViewEventReducer. */
  function Reduce(s: State, e: Event): (r: State)
    ensures e.UpdateActiveView? ==>
      r == s.(activeView := e.view, threeViewState := DefaultViewState)
    ensures e.SetActiveMeasurement? ==>
      && r.activeView == s.activeView && r.backdropOn == s.backdropOn && r.showFilters == s.showFilters
      && (r.activeMeasurement == NoMeasurement <==> e.id == s.activeMeasurement || e.id == NoMeasurement)
      && (e.id != s.activeMeasurement ==> r.activeMeasurement == e.id)
      && r.threeViewState.Keys == s.threeViewState.Keys + e.clickConfig.Keys + {"colormode", "measurementNotes"}
      && r.threeViewState["colormode"] == Str("measurement")
      && r.threeViewState["measurementNotes"] == e.measurementNotes
      && (forall k :: k in e.clickConfig && k != "colormode" && k != "measurementNotes" ==>
            k in r.threeViewState && r.threeViewState[k] == e.clickConfig[k])
      && (forall k :: k in s.threeViewState && k !in e.clickConfig && k != "colormode" && k != "measurementNotes" ==>
            k in r.threeViewState && r.threeViewState[k] == s.threeViewState[k])
    ensures e.UpdateFitZones? ==>
      r == s.(threeViewState := map["colormode" := Str("fit_zones"), "fitZones" := e.fitZoneClassifications])
    ensures e.OpenFootwearFilters? || e.CloseFootwearFilters? ==>
      r == s.(showFilters := e.OpenFootwearFilters?)
    ensures e.OpenBackdrop? || e.CloseBackdrop? ==>
      r == s.(backdropOn := Bool(e.OpenBackdrop?))
    ensures e.RestartSignup? || e.Unknown? ==> r == s
  {
    match e
    case UpdateActiveView(view) => s.(activeView := view, threeViewState := DefaultViewState)
    case SetActiveMeasurement(id, clickConfig, notes) =>
      s.(activeMeasurement := if id == s.activeMeasurement then NoMeasurement else id,
         threeViewState := MeasurementViewState(s.threeViewState, clickConfig, notes))
    case UpdateFitZones(fz) =>
      s.(threeViewState := map["colormode" := Str("fit_zones"), "fitZones" := fz])
    case OpenFootwearFilters => s.(showFilters := true)
    case CloseFootwearFilters => s.(showFilters := false)
    case RestartSignup(_) => s
    case OpenBackdrop => s.(backdropOn := Bool(true))
    case CloseBackdrop => s.(backdropOn := Bool(false))
    case Unknown(_) => s
  }

  /** The view state of a selected measurement: the click configuration
      spread over the old state, in measurement colour mode, with the
      measurement's notes. */
  function MeasurementViewState(viewState: map<string, Value>, clickConfig: map<string, Value>, notes: Value)
    : (r: map<string, Value>)
    ensures r.Keys == viewState.Keys + clickConfig.Keys + {"colormode", "measurementNotes"}
    ensures r["colormode"] == Str("measurement") && r["measurementNotes"] == notes
    ensures forall k :: k in clickConfig && k != "colormode" && k != "measurementNotes" ==>
      k in r && r[k] == clickConfig[k]
    ensures forall k :: k in viewState && k !in clickConfig && k != "colormode" && k != "measurementNotes" ==>
      k in r && r[k] == viewState[k]
  {
    Spread(viewState, clickConfig)["colormode" := Str("measurement")]["measurementNotes" := notes]
  }

  // ---------------------------------------------------------------------
  // Properties

  /** Selecting the same measurement twice returns to the selection before
      it, when that was no selection or this measurement. */
  lemma SelectTwice(s: State, id: string, clickConfig: map<string, Value>, notes: Value)
    requires id != NoMeasurement
    requires s.activeMeasurement == NoMeasurement || s.activeMeasurement == id
    ensures
      var e := SetActiveMeasurement(id, clickConfig, notes);
      Reduce(Reduce(s, e), e).activeMeasurement == s.activeMeasurement
  {
  }

  /** Showing fit zones, the event the footwear view sends, keeps the
      active view and measurement and leaves the 3D view state with only the
      colour mode and the fit zones. */
  lemma FitZonesKeepSelection(s: State, fz: Value)
    ensures Reduce(s, UpdateFitZones(fz)).activeView == s.activeView
    ensures Reduce(s, UpdateFitZones(fz)).activeMeasurement == s.activeMeasurement
    ensures Reduce(s, UpdateFitZones(fz)).threeViewState.Keys == {"colormode", "fitZones"}
  {
  }

  /** Each reduction is idempotent for every event but the measurement
      toggle: repeating an event changes nothing further. */
  lemma RepeatIsIdempotent(s: State, e: Event)
    requires !e.SetActiveMeasurement?
    ensures Reduce(Reduce(s, e), e) == Reduce(s, e)
  {
  }
}
