/** Option and the three-way outcome every statistic of the analyser reports. */
module Wrappers {

  datatype Option<+T> = None | Some(value: T)

  /** What a statistic yields: the column is absent from the dataset's schema,
      there is nothing to aggregate, or the computed value. */
  datatype Stat<+T> = Unavailable | NoData | Found(value: T)
}
