# STOCK_CHART data pipeline and chart lifecycle, in Dafny

STOCK_CHART is a small React page. It downloads a CSV of stock-index turnover
figures and lists the distinct index (company) names in a sidebar. When a name
is clicked, it draws a Chart.js line chart of that index's turnover over time.
This project models the pure part of `src/App.jsx` and proves properties of it:

- **Company index**: `[...new Set(rows.map(row => row.index_name))]`, the
  distinct names in first-seen order (`CompanyIndex`).
- **Series projection**: `displayChart`'s stable filter of the rows by
  `index_name`, and the two parallel maps to `index_date` labels and coerced
  `turnover_rs_cr` values (`SeriesProjection`).
- **Chart lifecycle**: the empty-selection early return, and the rule that the
  stored chart is destroyed before the new one is created and stored
  (`ChartLifecycle`).
- **Component state**: the `companies`/`rows`/`chart` slots, the parse-complete
  callback and clicks on the sidebar (`App`).

Rows are a `seq<Row>` with the three columns the page reads, kept as strings.
The numeric coercion (`parseFloat`) is a function parameter `parse: string -> V`.
A chart is known only by an identity, `ChartId`. The constructor's choice of
identity is a parameter, `newChart`. The handler's outside effects
(`chart.destroy()`, `new Chart(...)`, `setChart(...)`) are a list of `Effect`
values, run left to right. This lets the proofs speak about the state between
two effects as well as after the call. `ChartState.live` records the charts
created and not yet destroyed. It is bookkeeping for the proofs; the page keeps
no such set.

The code has no error value and no not-a-number sentinel:

- An empty selection is an early return that logs and leaves everything as it
  was. It is not an error value.
- The coercion has no not-a-number sentinel. Whatever `parse` returns is kept,
  one value per matching row.

Files: `sequences.dfy` (generic sequence facts), `rows.dfy`,
`company_index.dfy`, `series_projection.dfy`, `chart_lifecycle.dfy`, `app.dfy`.

## Model

| member | source | states |
|---|---|---|
| CompanyIndex.Distinct | src/App.jsx:25 | the spread of the Set has no duplicate names, holds exactly the names that occur in the input, and is never longer than the input |
| CompanyIndex.DistinctFirstSeenOrder | src/App.jsx:25 | if a name comes before another in the company list, its first row comes before the other's first row |
| CompanyIndex.DistinctUnique | src/App.jsx:25 | any duplicate-free list of exactly the input's names in first-seen order is the company list, so the three properties above determine it completely |
| CompanyIndex.Companies | src/App.jsx:25 | the seen-set loop yields the company list: no duplicates, a name is listed iff some row has it, at most one entry per row |
| SeriesProjection.Select | src/App.jsx:33 | every filtered row has the selected name and there are no more filtered rows than rows |
| SeriesProjection.MatchPositions | src/App.jsx:33 | the positions of the rows with the selected name; every listed position is a valid row index |
| SeriesProjection.MatchPositionsCharacterized | src/App.jsx:33 | the listed positions are strictly ascending, and a position is listed iff its row has the selected name |
| SeriesProjection.SelectIsMatchingSubsequence | src/App.jsx:33 | `filteredRows` has one row per matching position, and its k-th row is the row at the k-th matching position, so the filter keeps every match in original order |
| SeriesProjection.SelectAppend | src/App.jsx:33 | filtering a concatenation is the concatenation of the filtered parts |
| SeriesProjection.ProjectAligned | src/App.jsx:33-35 | `labels` and `turnoverData` both have one entry per matching row; the k-th label is that row's `index_date` and the k-th value is `parse` of its turnover, so nothing is dropped or reordered |
| SeriesProjection.ProjectEmptyIffNoMatch | src/App.jsx:33-38 | `turnoverData` is empty iff no row has the selected name |
| ChartLifecycle.NoChart | src/App.jsx:12 | the initial `null` chart slot satisfies the one-live-chart invariant with nothing live |
| ChartLifecycle.RedrawRun | src/App.jsx:56-77 | after a redraw the new chart is stored and live, the previously stored chart is no longer live unless it has the new chart's identity (which `new Chart` never gives), and no other chart changes |
| ChartLifecycle.RedrawPrefix | src/App.jsx:56-77 | from a valid state, the live charts after each step of a redraw are: the old one, none, then only the new one |
| ChartLifecycle.RedrawAtMostOneLive | src/App.jsx:56-77 | from a valid state, no intermediate point of a redraw has two live charts, and no chart is live when the new one is created |
| ChartLifecycle.CreateFailureAfterDestroy | src/App.jsx:57-77 | if the handler stops right after `chart.destroy()` (the constructor throws), the destroyed chart is still stored, nothing is live and the one-live-chart invariant no longer holds |
| ChartLifecycle.DisplayChart | src/App.jsx:32-78 | no matching row: no effect and the state is unchanged; otherwise the new chart, created from the projected series, is stored and live, the old one is no longer live unless it has the new chart's identity, the invariant is kept, and at most one chart is live at every intermediate point |
| App.Initial | src/App.jsx:10-12 | before the data arrives there are no companies, no rows, and the chart slot is `null` with nothing live |
| App.ParseComplete | src/App.jsx:21-26 | the callback stores the rows, lists exactly the names that occur in them, and leaves the chart alone |
| App.Click | src/App.jsx:89 | a click changes only the chart slot and keeps the one-live-chart invariant |
| App.ListedCompanyRedraws | src/App.jsx:38-41 | a company taken from the sidebar always has rows, so clicking it never takes the early return: the chart is redrawn from its series and stored |
| App.SessionKeepsOneChart | src/App.jsx:57-77 | after any sequence of clicks at most one chart is live, it is the stored one, and the company list and rows are unchanged |

## Left out

- The network fetch of the CSV (`src/App.jsx:16-17`): I/O and promise chaining. The rows come in as a parameter of `App.ParseComplete`.
- CSV parsing with `Papa.parse` (`src/App.jsx:19-22`): a foreign library. The model takes the parsed rows as given and does not model quoting, ragged rows or a row whose `index_name` is `undefined`.
- The semantics of `parseFloat`, including NaN: floating point. It is the uninterpreted parameter `parse`.
- Chart.js registration, drawing, canvas lookup and the configuration object, including the dataset label text and colours (`src/App.jsx:7`, `43-54`, `62-74`): foreign calls and DOM access. Only the identity of the created chart and the series it receives are kept.
- The hook mechanics: the `useEffect` at `src/App.jsx:15`, asynchronous state updates, re-rendering and JSX (`src/App.jsx:80-101`). The three `useState` slots themselves are `App.AppState`. Each click is assumed to see the chart stored by the previous click. React's stale-closure and batching behaviour is not modelled.
- `console.error` in the early return (`src/App.jsx:39`): logging only.
- A throwing `getContext` or `new Chart` (`src/App.jsx:62-74`): `DisplayChart` assumes foreign calls do not throw. On that path the stored chart has been destroyed but `setChart` never runs, so the slot keeps a destroyed chart and the next click destroys it again. `CreateFailureAfterDestroy` states the state left behind; the model does not continue a session from it.
