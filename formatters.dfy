/** Display formatting (Helpers/Formatters.swift). Each formatter picks a
    unit band, scales the value into it and names a `printf` format; the
    model returns what is shown as a value (the scaled magnitude, the
    number of decimals of the `%.Nf` conversion, and the text after the
    number) rather than the rendered digits. */
module Formatters {

  /** A number as a formatter shows it: `String(format: "%.<decimals>f<suffix>", magnitude)`. */
  datatype Display = Display(magnitude: real, decimals: nat, suffix: string)

  const Kibi: real := 1024.0
  const Mebi: real := 1048576.0
  const Gibi: real := 1073741824.0

  /** `speed`: bytes per second in the largest binary unit it reaches. */
  function Speed(bytesPerSec: real): Display {
    if bytesPerSec < Kibi then Display(bytesPerSec, 0, " B/s")
    else if bytesPerSec < Mebi then Display(bytesPerSec / Kibi, 1, " KB/s")
    else if bytesPerSec < Gibi then Display(bytesPerSec / Mebi, 1, " MB/s")
    else Display(bytesPerSec / Gibi, 2, " GB/s")
  }

  /** The divisor of each `speed` band. */
  function SpeedScale(suffix: string): real {
    if suffix == " KB/s" then Kibi
    else if suffix == " MB/s" then Mebi
    else if suffix == " GB/s" then Gibi
    else 1.0
  }

  /** `milliwatts`: milliwatts below one watt, watts from there on. */
  function Milliwatts(mw: real): Display {
    if mw < 1000.0 then Display(mw, 0, " mW") else Display(mw / 1000.0, 1, " W")
  }

  /** `temperature`: degrees Celsius with one decimal. */
  function Temperature(celsius: real): Display {
    Display(celsius, 1, "°C")
  }

  /** `percentage`: a percentage with one decimal. */
  function Percentage(value: real): Display {
    Display(value, 1, "%")
  }

  /** `gigabytes`: gigabytes with one decimal. */
  function Gigabytes(gb: real): Display {
    Display(gb, 1, " GB")
  }

  /** Every rate falls in exactly one band, chosen by the thresholds 1024,
      1024² and 1024³; the band fixes the decimals; and the magnitude
      shown is the rate divided by the band's power of 1024. */
  lemma SpeedBands(bytesPerSec: real)
    ensures var d := Speed(bytesPerSec);
      (d.suffix == " B/s" <==> bytesPerSec < 1024.0) &&
      (d.suffix == " KB/s" <==> 1024.0 <= bytesPerSec < 1024.0 * 1024.0) &&
      (d.suffix == " MB/s" <==> 1024.0 * 1024.0 <= bytesPerSec < 1024.0 * 1024.0 * 1024.0) &&
      (d.suffix == " GB/s" <==> 1024.0 * 1024.0 * 1024.0 <= bytesPerSec) &&
      d.decimals == (if d.suffix == " B/s" then 0 else if d.suffix == " GB/s" then 2 else 1) &&
      d.magnitude * SpeedScale(d.suffix) == bytesPerSec
  {
    var d := Speed(bytesPerSec);
    assert " B/s" != " KB/s" && " B/s" != " MB/s" && " B/s" != " GB/s" by {
      assert |" B/s"| == 4;
    }
    assert " KB/s"[1] == 'K' && " MB/s"[1] == 'M' && " GB/s"[1] == 'G';
  }

  /** For a non-negative rate the shown magnitude never reaches 1024 below
      the top band, and is at least 1 above the bottom band: in the KB/s
      and MB/s bands it lies in [1, 1024). */
  lemma SpeedMagnitudeInBand(bytesPerSec: real)
    requires 0.0 <= bytesPerSec
    ensures var d := Speed(bytesPerSec);
      (d.suffix != " GB/s" ==> 0.0 <= d.magnitude < 1024.0) &&
      (d.suffix != " B/s" ==> 1.0 <= d.magnitude)
  {
    SpeedBands(bytesPerSec);
  }

  /** Power below 1000 mW is shown unscaled with no decimals; from 1000 mW
      on it is shown in watts, a thousandth of the value, with one decimal
      and a magnitude of at least 1. */
  lemma MilliwattsBands(mw: real)
    ensures var d := Milliwatts(mw);
      (d.suffix == " mW" <==> mw < 1000.0) &&
      (d.suffix == " mW" ==> d.magnitude == mw && d.decimals == 0) &&
      (d.suffix == " W" <==> 1000.0 <= mw) &&
      (d.suffix == " W" ==> d.magnitude * 1000.0 == mw && 1.0 <= d.magnitude && d.decimals == 1)
  {
    assert |" mW"| != |" W"|;
  }

  /** Temperatures, percentages and gigabytes are shown unscaled, with one
      decimal, each with its own unit, so they cannot be mistaken for one
      another. */
  lemma OneDecimalFormats(x: real)
    ensures Temperature(x) == Display(x, 1, "°C")
    ensures Percentage(x) == Display(x, 1, "%")
    ensures Gigabytes(x) == Display(x, 1, " GB")
    ensures Temperature(x).suffix != Percentage(x).suffix && Percentage(x).suffix != Gigabytes(x).suffix &&
      Temperature(x).suffix != Gigabytes(x).suffix
  {
    assert |"°C"| == 2 && |"%"| == 1 && |" GB"| == 3;
  }
}
