/** The constant threshold table consulted by the air-quality classifier. */
module Thresholds {

  /** Inclusive upper bounds of the Good, Moderate and Unhealthy bands of one
      pollutant; anything above `high` is Very Unhealthy. */
  datatype Triple = Triple(low: real, med: real, high: real)

  /** The bands of a triple are laid out left to right. */
  predicate Ordered(t: Triple) {
    t.low <= t.med <= t.high
  }

  /** One triple per recognised pollutant key, with the dashboard's values. */
  const Table: map<string, Triple> := map[
    "CO(GT)"        := Triple(4.5, 9.5, 12.5),
    "NMHC(GT)"      := Triple(150.0, 300.0, 400.0),
    "C6H6(GT)"      := Triple(5.0, 10.0, 15.0),
    "PT08.S2(NMHC)" := Triple(100.0, 200.0, 300.0),
    "NOx(GT)"       := Triple(100.0, 200.0, 400.0),
    "PT08.S3(NOx)"  := Triple(150.0, 300.0, 450.0),
    "NO2(GT)"       := Triple(40.0, 80.0, 120.0),
    "PT08.S4(NO2)"  := Triple(150.0, 300.0, 450.0),
    "PT08.S5(O3)"   := Triple(100.0, 180.0, 240.0),
    "T"             := Triple(0.0, 35.0, 50.0),
    "RH"            := Triple(30.0, 60.0, 90.0),
    "AH"            := Triple(5.0, 10.0, 15.0)
  ]

  /** Every triple of the table is non-decreasing. */
  lemma TableOrdered()
    ensures forall p :: p in Table ==> Ordered(Table[p])
  {
  }
}
