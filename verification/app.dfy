/** The component state of `App` and the two events that change it: the CSV
    parse completing and a click on a company in the sidebar. */
module App {
  import opened Sequences
  import opened Rows
  import opened CompanyIndex
  import opened SeriesProjection
  import opened ChartLifecycle

  /** The three `useState` slots: `companies`, `rows` and `chart`. */
  datatype AppState = AppState(companies: seq<string>, rows: seq<Row>, chart: ChartState)

  /** Before the fetch has completed: no companies, no rows, no chart. */
  function Initial(): (app: AppState)
    ensures app.companies == [] && app.rows == []
    ensures app.chart.stored == None && app.chart.live == {}
  {
    AppState([], [], NoChart())
  }

  /** The parser's `complete` callback: `setRows(rows)` and `setCompanies(...)`. */
  function ParseComplete(app: AppState, rows: seq<Row>): (app': AppState)
    ensures app'.rows == rows
    ensures app'.chart == app.chart
    ensures NoDuplicates(app'.companies)
    ensures forall c :: c in app'.companies <==> exists i :: 0 <= i < |rows| && rows[i].indexName == c
  {
    var names := Names(rows);
    assert forall i :: 0 <= i < |rows| ==> names[i] == rows[i].indexName;
    AppState(CompanyList(rows), rows, app.chart)
  }

  /** A click on a company entry: `displayChart(company)`, whose `setChart`
      replaces the chart slot. */
  function Click<V>(app: AppState, company: string, parse: string -> V, newChart: ChartId)
    : (r: (AppState, seq<Effect<V>>))
    ensures r.0.companies == app.companies && r.0.rows == app.rows
    ensures Valid(app.chart) ==> Valid(r.0.chart)
  {
    var step := DisplayChart(app.chart, app.rows, company, parse, newChart);
    (app.(chart := step.state), step.effects)
  }

  /** Every company in the sidebar has at least one row, so clicking it never
      takes the early return: the chart is always redrawn and stored. */
  lemma ListedCompanyRedraws<V>(app: AppState, rows: seq<Row>, company: string, parse: string -> V, newChart: ChartId)
    requires company in ParseComplete(app, rows).companies
    ensures var (app', fx) := Click(ParseComplete(app, rows), company, parse, newChart);
            && |fx| > 0
            && app'.chart.stored == Some(newChart)
            && Create(newChart, Project(rows, company, parse)) in fx
  {
  }

  /** One click of a session: the company clicked and the identity the new
      chart would get. */
  datatype Selection = Selection(company: string, newChart: ChartId)

  /** The state after a sequence of clicks. */
  function Session<V>(app: AppState, clicks: seq<Selection>, parse: string -> V): AppState
    decreases |clicks|
  {
    if |clicks| == 0 then app
    else
      var last := clicks[|clicks| - 1];
      Click(Session(app, clicks[..|clicks| - 1], parse), last.company, parse, last.newChart).0
  }

  /** However many companies are clicked, at most one chart stays live and it
      is the stored one; the company list and the rows are untouched. */
  lemma {:induction false} SessionKeepsOneChart<V>(app: AppState, clicks: seq<Selection>, parse: string -> V)
    requires Valid(app.chart)
    ensures var app' := Session(app, clicks, parse);
            && Valid(app'.chart)
            && |app'.chart.live| <= 1
            && app'.companies == app.companies
            && app'.rows == app.rows
    decreases |clicks|
  {
    if |clicks| > 0 {
      SessionKeepsOneChart(app, clicks[..|clicks| - 1], parse);
    }
    var st := Session(app, clicks, parse).chart;
    assert |StoredIds(st.stored)| <= 1;
  }
}
