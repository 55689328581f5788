/** One SEN55 measurement as the monitor uses it, and the outcome of asking the
    sensor for one. The frame decoding and scale factors live in the Sensirion
    driver library and are not part of this model: a reading arrives already
    decoded, or the read fails as a whole. */
module Sensor {

  /** The six quantities `sen55_read_data` returns, in its return order. */
  datatype Reading = Reading(
    temperature: real,  // ambient temperature, degrees Celsius
    humidity: real,     // ambient relative humidity, percent
    pm25: real,         // PM2.5 mass concentration, micrograms per cubic metre
    pm10: real,         // PM10 mass concentration, micrograms per cubic metre
    voc: real,          // VOC index (scaled)
    nox: real           // NOx index (scaled)
  )
  {
    /** The value this reading holds for channel `c`. */
    function Get(c: Channel): real {
      match c
      case Temperature => temperature
      case Humidity => humidity
      case Pm25 => pm25
      case Pm10 => pm10
      case Voc => voc
      case Nox => nox
    }
  }

  /** The six value channels of the history (the timestamp channel is apart). */
  datatype Channel = Temperature | Humidity | Pm25 | Pm10 | Voc | Nox

  /** The reading `current_data` holds before the first successful acquisition. */
  const Zero: Reading := Reading(0.0, 0.0, 0.0, 0.0, 0.0, 0.0)

  /** What one call of `sen55_read_data` produces: the six values, or an
      exception raised somewhere in the driver before anything was stored. */
  datatype ReadResult = Measured(reading: Reading) | ReadFailed

  /** A reading is determined by its six channel values. */
  lemma ReadingByChannels(r: Reading, q: Reading)
    requires forall c: Channel :: r.Get(c) == q.Get(c)
    ensures r == q
  {
    assert r.Get(Temperature) == q.Get(Temperature) && r.Get(Humidity) == q.Get(Humidity);
    assert r.Get(Pm25) == q.Get(Pm25) && r.Get(Pm10) == q.Get(Pm10);
    assert r.Get(Voc) == q.Get(Voc) && r.Get(Nox) == q.Get(Nox);
  }
}
