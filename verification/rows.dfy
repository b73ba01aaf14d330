/** The parsed CSV records, reduced to the columns the application reads. */
module Rows {

  /** One record produced by the CSV parser with `header: true`: the values of
      the `index_name`, `index_date` and `turnover_rs_cr` columns, as strings. */
  datatype Row = Row(indexName: string, indexDate: string, turnover: string)

  /** `rows.map((row) => row.index_name)` */
  function Names(rows: seq<Row>): seq<string> {
    seq(|rows|, i requires 0 <= i < |rows| => rows[i].indexName)
  }
}
