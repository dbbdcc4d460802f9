/**
 * Clock readings. An instant is a whole number of seconds since
 * 1970-01-01T00:00:00 in the server's local time (what `LocalDateTime.now()`
 * reads, truncated to the second); the civil date of an instant and the date
 * patterns the core prints are computed from it.
 */
module Calendario {
  import opened Texto

  type Instante = nat

  datatype Data = Data(ano: int, mes: int, dia: int)

  const SEGUNDOS_POR_HORA: nat := 3600
  const SEGUNDOS_POR_DIA: nat := 86400

  /**
   * The proleptic Gregorian date of the day numbered `dias` from 1970-01-01
   * (Hinnant's civil-from-days algorithm; Dafny's `/` and `%` floor for a
   * positive divisor, as the algorithm needs).
   */
  function DataCivil(dias: nat): Data
  {
    var z := dias + 719468;
    var era := z / 146097;
    var doe := z % 146097;
    var yoe := (doe - doe / 1460 + doe / 36524 - doe / 146096) / 365;
    var doy := doe - (365 * yoe + yoe / 4 - yoe / 100);
    var mp := (5 * doy + 2) / 153;
    var d := doy - (153 * mp + 2) / 5 + 1;
    var m := if mp < 10 then mp + 3 else mp - 9;
    Data(yoe + era * 400 + (if m <= 2 then 1 else 0), m, d)
  }

  function DataDe(t: Instante): Data
  {
    DataCivil(t / SEGUNDOS_POR_DIA)
  }

  /** `plusDays(n)` on a local date-time: local time has no daylight-saving gaps. */
  function MaisDias(t: Instante, n: nat): (r: Instante)
    ensures r - t == n * SEGUNDOS_POR_DIA
  {
    t + n * SEGUNDOS_POR_DIA
  }

  /** `format(ofPattern("yyMMdd"))`: two digits each of year, month and day. */
  function FormatoYYMMDD(t: Instante): (s: string)
    ensures |s| == 6 && AllDigits(s)
    ensures ValorDecimal(s[0..2]) == DataDe(t).ano % 100
    ensures ValorDecimal(s[2..4]) == DataDe(t).mes % 100
    ensures ValorDecimal(s[4..6]) == DataDe(t).dia % 100
  {
    var d := DataDe(t);
    var s := DoisDigitos(d.ano) + DoisDigitos(d.mes) + DoisDigitos(d.dia);
    assert s[0..2] == DoisDigitos(d.ano) && s[2..4] == DoisDigitos(d.mes) && s[4..6] == DoisDigitos(d.dia);
    s
  }

  /** `format(ofPattern("dd/MM/yyyy"))` for a year of four digits. */
  function FormatoDDMMYYYY(t: Instante): (s: string)
    ensures |s| >= 7 && s[2] == '/' && s[5] == '/' && AllDigits(s[0..2]) && AllDigits(s[3..5])
    ensures ValorDecimal(s[0..2]) == DataDe(t).dia % 100 && ValorDecimal(s[3..5]) == DataDe(t).mes % 100
  {
    var d := DataDe(t);
    var s := DoisDigitos(d.dia) + "/" + DoisDigitos(d.mes) + "/" + LongToString(d.ano);
    assert s[0..2] == DoisDigitos(d.dia) && s[3..5] == DoisDigitos(d.mes);
    s
  }
}
