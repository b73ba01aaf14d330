/** The chart held in component state and the destroy-before-replace rule of
    `displayChart`. A chart is known by its identity; drawing is not modelled. */
module ChartLifecycle {
  import opened Rows
  import opened SeriesProjection

  datatype Option<T> = None | Some(value: T)

  /** The identity of one `Chart` instance. */
  type ChartId = nat

  /** What the handler does to the outside world, in program order. */
  datatype Effect<V> =
    | Destroy(id: ChartId)                   // chart.destroy()
    | Create(id: ChartId, series: Series<V>) // new Chart(ctx, { data: ... })
    | Store(id: ChartId)                     // setChart(newChart)

  /** The stored chart (`null` or an instance) and the charts that are drawn
      and not yet destroyed. */
  datatype ChartState = ChartState(stored: Option<ChartId>, live: set<ChartId>)

  function StoredIds(o: Option<ChartId>): set<ChartId> {
    match o
    case None => {}
    case Some(c) => {c}
  }

  /** Between two handler calls the only live chart is the stored one. */
  predicate Valid(st: ChartState) {
    st.live == StoredIds(st.stored)
  }

  /** The state of `React.useState(null)` before any company is clicked. */
  function NoChart(): (st: ChartState)
    ensures Valid(st) && st.live == {}
  {
    ChartState(None, {})
  }

  function Apply<V>(st: ChartState, e: Effect<V>): ChartState {
    match e
    case Destroy(c) => st.(live := st.live - {c})
    case Create(c, _) => st.(live := st.live + {c})
    case Store(c) => st.(stored := Some(c))
  }

  /** The state after performing `fx` from left to right. */
  function Run<V>(st: ChartState, fx: seq<Effect<V>>): ChartState
    decreases |fx|
  {
    if |fx| == 0 then st else Apply(Run(st, fx[..|fx| - 1]), fx[|fx| - 1])
  }

  /** The effects of a redraw: destroy the stored chart if there is one,
      then create the new chart and store it. */
  function Redraw<V>(stored: Option<ChartId>, newChart: ChartId, s: Series<V>): seq<Effect<V>> {
    (match stored
     case None => []
     case Some(c) => [Destroy(c)]) + [Create(newChart, s), Store(newChart)]
  }

  /** The state a redraw leaves: the stored chart is destroyed and the new one
      is the stored chart and live. */
  lemma RedrawRun<V>(st: ChartState, newChart: ChartId, s: Series<V>)
    ensures Run(st, Redraw(st.stored, newChart, s))
         == ChartState(Some(newChart), st.live - StoredIds(st.stored) + {newChart})
  {
    var create, store := Create(newChart, s), Store(newChart);
    match st.stored
    case None =>
      RunTwo(st, create, store);
    case Some(c) =>
      var destroy: Effect<V> := Destroy(c);
      assert Redraw(st.stored, newChart, s) == [destroy, create, store];
      RunThree(st, destroy, create, store);
  }

  /** Destroy comes before create: starting from a valid state, no prefix of a
      redraw leaves two charts live, and nothing is live when the new chart is
      created. */
  lemma RedrawAtMostOneLive<V>(st: ChartState, newChart: ChartId, s: Series<V>)
    ensures var fx := Redraw(st.stored, newChart, s);
            Valid(st) ==> forall k :: 0 <= k <= |fx| ==> |Run(st, fx[..k]).live| <= 1
    ensures var fx := Redraw(st.stored, newChart, s);
            Valid(st) ==> forall k :: 0 <= k < |fx| && fx[k].Create? ==> Run(st, fx[..k]).live == {}
  {
    if Valid(st) {
      var fx := Redraw(st.stored, newChart, s);
      var states := RedrawStates(st, newChart, s);
      assert |fx| == |states| - 1;
      forall k | 0 <= k <= |fx|
        ensures |Run(st, fx[..k]).live| <= 1
      {
        RedrawPrefix(st, newChart, s, k);
        assert |states[k]| <= 1;
      }
      forall k | 0 <= k < |fx| && fx[k].Create?
        ensures Run(st, fx[..k]).live == {}
      {
        RedrawPrefix(st, newChart, s, k);
        assert k == |fx| - 2;
      }
    }
  }

  /** The live set after each prefix of a redraw from a valid state. */
  function RedrawStates<V>(st: ChartState, newChart: ChartId, s: Series<V>): seq<set<ChartId>> {
    match st.stored
    case None => [{}, {newChart}, {newChart}]
    case Some(_) => [st.live, {}, {newChart}, {newChart}]
  }

  lemma RedrawPrefix<V>(st: ChartState, newChart: ChartId, s: Series<V>, k: nat)
    requires Valid(st)
    requires k <= |Redraw(st.stored, newChart, s)|
    ensures Run(st, Redraw(st.stored, newChart, s)[..k]).live == RedrawStates(st, newChart, s)[k]
  {
    var fx := Redraw(st.stored, newChart, s);
    var create, store := Create(newChart, s), Store(newChart);
    match st.stored
    case None =>
      assert fx == [create, store];
      if k == 0 {
        assert fx[..k] == [];
      } else if k == 1 {
        assert fx[..k] == [create];
        RunOne(st, create);
      } else {
        assert fx[..k] == [create, store];
        RunTwo(st, create, store);
      }
    case Some(c) =>
      var destroy: Effect<V> := Destroy(c);
      assert fx == [destroy, create, store];
      if k == 0 {
        assert fx[..k] == [];
      } else if k == 1 {
        assert fx[..k] == [destroy];
        RunOne(st, destroy);
      } else if k == 2 {
        assert fx[..k] == [destroy, create];
        RunTwo(st, destroy, create);
      } else {
        assert fx[..k] == [destroy, create, store];
        RunThree(st, destroy, create, store);
      }
  }

  /** When `new Chart` throws after `chart.destroy()` has run, `setChart` is
      skipped: the destroyed chart stays stored and nothing is live. */
  lemma CreateFailureAfterDestroy<V>(st: ChartState, newChart: ChartId, s: Series<V>)
    requires Valid(st) && st.stored.Some?
    ensures var after := Run(st, Redraw(st.stored, newChart, s)[..1]);
            && after.stored == st.stored
            && after.live == {}
            && !Valid(after)
  {
  }

  lemma RunOne<V>(st: ChartState, e: Effect<V>)
    ensures Run(st, [e]) == Apply(st, e)
  {
  }

  lemma RunTwo<V>(st: ChartState, e1: Effect<V>, e2: Effect<V>)
    ensures Run(st, [e1, e2]) == Apply(Apply(st, e1), e2)
  {
    assert [e1, e2][..1] == [e1];
    RunOne(st, e1);
  }

  lemma RunThree<V>(st: ChartState, e1: Effect<V>, e2: Effect<V>, e3: Effect<V>)
    ensures Run(st, [e1, e2, e3]) == Apply(Apply(Apply(st, e1), e2), e3)
  {
    assert [e1, e2, e3][..2] == [e1, e2];
    RunTwo(st, e1, e2);
  }

  /** The outcome of one call: the new state and the effects that led there. */
  datatype Step<V> = Step(state: ChartState, effects: seq<Effect<V>>)

  /** `displayChart(name)`. `newChart` is the identity the `Chart` constructor
      gives the new instance. */
  function DisplayChart<V>(st: ChartState, rows: seq<Row>, name: string, parse: string -> V, newChart: ChartId)
    : (step: Step<V>)
    ensures step.state == Run(st, step.effects)
    ensures (forall i :: 0 <= i < |rows| ==> rows[i].indexName != name) ==> step == Step(st, [])
    ensures (exists i :: 0 <= i < |rows| && rows[i].indexName == name) ==>
              && step.state.stored == Some(newChart)
              && newChart in step.state.live
              && step.state.live == st.live - StoredIds(st.stored) + {newChart}
              && Create(newChart, Project(rows, name, parse)) in step.effects
    ensures Valid(st) ==> Valid(step.state)
    ensures Valid(st) ==>
              forall k :: 0 <= k <= |step.effects| ==> |Run(st, step.effects[..k]).live| <= 1
    ensures Valid(st) ==>
              forall k :: 0 <= k < |step.effects| && step.effects[k].Create? ==>
                Run(st, step.effects[..k]).live == {}
  {
    var series := Project(rows, name, parse);
    ProjectEmptyIffNoMatch(rows, name, parse);
    if |series.data| == 0 then
      Step(st, [])
    else
      var fx := Redraw(st.stored, newChart, series);
      RedrawRun(st, newChart, series);
      RedrawAtMostOneLive(st, newChart, series);
      Step(Run(st, fx), fx)
  }
}
