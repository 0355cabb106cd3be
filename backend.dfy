/** The spreadsheet-row normalisation of the backend: cleaning cells,
    converting numbers, coordinates and dates, the status rule and the
    per-row mapping of `processar_planilha`. */
module Backend {
  import opened Wrappers
  import opened Text

  // ------------------------------------------------------------------ values

  /** The fields of a `datetime`; `seconds` is the time of day. */
  datatype DateTimeValue = DateTimeValue(year: int, month: int, day: int, seconds: real)

  predicate IsLeap(y: int)
  {
    (y % 4 == 0 && y % 100 != 0) || y % 400 == 0
  }

  function DaysInMonth(y: int, m: int): int
  {
    if m == 2 then (if IsLeap(y) then 29 else 28)
    else if m == 4 || m == 6 || m == 9 || m == 11 then 30
    else 31
  }

  /** A date `datetime(y, m, d)` accepts (years 1 to 9999). */
  predicate ValidDate(y: int, m: int, d: int)
  {
    1 <= y <= 9999 && 1 <= m <= 12 && 1 <= d <= DaysInMonth(y, m)
  }

  /** A `datetime` (or pandas `Timestamp`) value. */
  type DateTime = t: DateTimeValue | ValidDate(t.year, t.month, t.day) && 0.0 <= t.seconds < 86400.0
    witness DateTimeValue(1, 1, 1, 0.0)

  /** `a < b` between two date-times. */
  predicate Before(a: DateTime, b: DateTime)
  {
    a.year < b.year
    || (a.year == b.year && (a.month < b.month
    || (a.month == b.month && (a.day < b.day
    || (a.day == b.day && a.seconds < b.seconds)))))
  }

  /** `d.replace(hour=0, minute=0, second=0, microsecond=0)`. */
  function Midnight(d: DateTime): (m: DateTime)
    ensures m.year == d.year && m.month == d.month && m.day == d.day && m.seconds == 0.0
  {
    DateTimeValue(d.year, d.month, d.day, 0.0)
  }

  /** Midnight is the first moment of its day: nothing on that day comes before it,
      it is strictly before every later moment of the day, every moment of the day
      has the same midnight, and taking it twice changes nothing. */
  lemma MidnightStartsDay(d: DateTime, e: DateTime)
    ensures Midnight(Midnight(d)) == Midnight(d)
    ensures Before(Midnight(d), d) <==> d.seconds > 0.0
    ensures e.year == d.year && e.month == d.month && e.day == d.day ==>
      !Before(e, Midnight(d)) && Midnight(e) == Midnight(d)
    ensures Before(e, Midnight(d)) <==> Before(Midnight(e), Midnight(d))
  {
  }

  /** One spreadsheet cell after `df.replace({np.nan: None})`: missing, text, a
      number, a pandas `Timestamp`, or a plain `datetime.datetime` (what a date
      cell holds in a column whose other cells are text). */
  datatype Cell = Missing | Text(s: string) | Num(x: real) | Stamp(t: DateTime) | PyDateTime(dt: DateTime)

  /** What the model leaves to Python and pandas: `str(valor)` of a number or
      timestamp cell, `float(s)` of a string (`None` where it raises
      `ValueError`), and `pd.to_datetime(v, unit='D', origin='1899-12-30')`. */
  datatype Runtime = Runtime(
    show: Cell -> string,
    parseFloat: string -> Option<real>,
    excelDate: real -> Option<DateTime>)

  /** `str(valor)`. */
  function CellText(rt: Runtime, c: Cell): string
  {
    match c
    case Text(s) => s
    case _ => rt.show(c)
  }

  // -------------------------------------------------------------- limpar_valor

  /** The texts `limpar_valor` treats as no value, compared after `lower()`. */
  const Sentinels: set<string> := {"nan", "none", "nat", ""}

  /** `valor_str.lower() in ['nan', 'none', 'nat', '']`, letter by letter. */
  predicate IsSentinel(v: string)
  {
    v == []
    || (|v| == 3 && AsciiLowerChar(v[0]) == 'n' && AsciiLowerChar(v[1]) == 'a'
        && (AsciiLowerChar(v[2]) == 'n' || AsciiLowerChar(v[2]) == 't'))
    || (|v| == 4 && AsciiLowerChar(v[0]) == 'n' && AsciiLowerChar(v[1]) == 'o'
        && AsciiLowerChar(v[2]) == 'n' && AsciiLowerChar(v[3]) == 'e')
  }

  /** The letter-by-letter test is the membership test of the source. */
  lemma SentinelIsLowerMember(v: string)
    ensures IsSentinel(v) <==> AsciiLower(v) in Sentinels
  {
    var l := AsciiLower(v);
    if |v| == 3 {
      assert l == [l[0], l[1], l[2]];
    } else if |v| == 4 {
      assert l == [l[0], l[1], l[2], l[3]];
    }
  }

  /** `limpar_valor(valor)`: `None` for a missing cell or one whose stripped text is,
      ignoring case, "nan", "none", "nat" or empty; otherwise the stripped text. */
  function LimparValor(rt: Runtime, c: Cell): (r: Option<string>)
    ensures c.Missing? ==> r.None?
    ensures r.Some? ==> r.value == Strip(CellText(rt, c)) && r.value != []
    ensures r.None? <==> c.Missing? || IsSentinel(Strip(CellText(rt, c)))
  {
    if c.Missing? then None
    else
      var v := Strip(CellText(rt, c));
      if IsSentinel(v) then None else Some(v)
  }

  /** A cleaned value has no surrounding blanks. */
  lemma LimparTrimmed(rt: Runtime, c: Cell)
    requires LimparValor(rt, c).Some?
    ensures var v := LimparValor(rt, c).value; !IsSpace(v[0]) && !IsSpace(v[|v| - 1])
  {
    StripIdempotent(CellText(rt, c));
  }

  /** Cleaning is idempotent: cleaning the text a cell was cleaned to gives it back. */
  lemma LimparIdempotent(rt: Runtime, c: Cell)
    requires LimparValor(rt, c).Some?
    ensures LimparValor(rt, Text(LimparValor(rt, c).value)) == LimparValor(rt, c)
  {
    var v := Strip(CellText(rt, c));
    StripIdempotent(CellText(rt, c));
    assert CellText(rt, Text(v)) == v;
  }

  // ---------------------------------------------------- numbers and coordinates

  /** `float(valor)` of a cell, `None` where it raises: a missing cell (`None`) and
      a date raise `TypeError`, an unreadable text `ValueError`. */
  function CellFloat(rt: Runtime, c: Cell): Option<real>
  {
    match c
    case Missing => None
    case Text(s) => rt.parseFloat(s)
    case Num(x) => Some(x)
    case Stamp(_) => None
    case PyDateTime(_) => None
  }

  /** `converter_numero(valor, padrao)`: the cell's number, or `padrao` when it is
      missing or does not convert. A number cell gives its number, a text the number
      `float()` reads in it, and a missing cell, a date or an unreadable text the default. */
  function ConverterNumero(rt: Runtime, c: Cell, padrao: real): (r: real)
    ensures c.Num? ==> r == c.x
    ensures c.Missing? || c.Stamp? || c.PyDateTime? ==> r == padrao
    ensures c.Text? && rt.parseFloat(c.s).Some? ==> r == rt.parseFloat(c.s).value
    ensures c.Text? && rt.parseFloat(c.s).None? ==> r == padrao
  {
    match CellFloat(rt, c)
    case Some(x) => x
    case None => padrao
  }

  /** The default shows through exactly where `float()` fails: two different
      defaults give the same result iff the cell converts. */
  lemma DefaultOnlyWhenUnreadable(rt: Runtime, c: Cell, p: real, q: real)
    requires p != q
    ensures ConverterNumero(rt, c, p) == ConverterNumero(rt, c, q) <==> CellFloat(rt, c).Some?
  {
  }

  /** `int(x)` of a float: truncation toward zero. */
  function Trunc(x: real): (n: int)
    ensures 0.0 <= x ==> 0 <= n && n as real <= x < n as real + 1.0
    ensures x < 0.0 ==> n <= 0 && n as real - 1.0 < x <= n as real
  {
    if x >= 0.0 then x.Floor else -((-x).Floor)
  }

  /** `s.replace(',', '.')`. */
  function CommaToDot(s: string): (r: string)
    ensures |r| == |s|
    ensures forall i :: 0 <= i < |s| ==> r[i] == (if s[i] == ',' then '.' else s[i])
  {
    if s == [] then [] else [if s[0] == ',' then '.' else s[0]] + CommaToDot(s[1..])
  }

  /** `converter_coordenada(valor)`: the number the cell's text spells once commas
      become points and blanks are stripped, kept only within [-180, 180]. */
  function ConverterCoordenada(rt: Runtime, c: Cell): (r: Option<real>)
    ensures r.Some? ==> -180.0 <= r.value <= 180.0
    ensures c.Missing? ==> r.None?
    ensures !c.Missing? ==>
      var f := rt.parseFloat(Strip(CommaToDot(CellText(rt, c))));
      r == (if f.Some? && -180.0 <= f.value <= 180.0 then f else None)
  {
    if c.Missing? then None
    else
      match rt.parseFloat(Strip(CommaToDot(CellText(rt, c))))
      case None => None
      case Some(coord) => if -180.0 <= coord <= 180.0 then Some(coord) else None
  }

  /** A coordinate written with decimal commas reads as the one written with points. */
  lemma DecimalComma(rt: Runtime, s: string)
    ensures ConverterCoordenada(rt, Text(s)) == ConverterCoordenada(rt, Text(CommaToDot(s)))
  {
    var once := CommaToDot(s);
    var twice := CommaToDot(once);
    assert twice == once by {
      forall i | 0 <= i < |once| ensures twice[i] == once[i] {
      }
    }
  }

  /** `validar_coordenadas(lat, lng)` for the values `float()` made of its arguments
      (`None` where it raised). */
  predicate ValidarCoordenadas(lat: Option<real>, lng: Option<real>)
  {
    lat.Some? && lng.Some? && -90.0 <= lat.value <= 90.0 && -180.0 <= lng.value <= 180.0
  }

  /** On the values `converter_coordenada` produces, which already lie in
      [-180, 180], the validation reduces to both converting and the latitude lying
      in [-90, 90]: a latitude cell reading 120 converts but is not valid. */
  lemma CoordinatesValidIffLatitudeInRange(rt: Runtime, latCell: Cell, lngCell: Cell)
    ensures var lat, lng := ConverterCoordenada(rt, latCell), ConverterCoordenada(rt, lngCell);
      ValidarCoordenadas(lat, lng) <==> lat.Some? && lng.Some? && -90.0 <= lat.value <= 90.0
  {
  }

  // -------------------------------------------------------------------- dates

  /** `s.split(sep)`. */
  function Split(s: string, sep: char): (parts: seq<string>)
    ensures |parts| >= 1
  {
    if s == [] then [[]]
    else
      var rest := Split(s[1..], sep);
      if s[0] == sep then [[]] + rest else [[s[0]] + rest[0]] + rest[1..]
  }

  /** A string without the separator splits into itself. */
  lemma {:induction false} SplitNone(s: string, sep: char)
    requires sep !in s
    ensures Split(s, sep) == [s]
  {
    if s != [] {
      SplitNone(s[1..], sep);
      assert [s[0]] + s[1..] == s;
    }
  }

  /** Splitting `a + [sep] + b` where `a` has no separator gives `a` and then the pieces of `b`. */
  lemma {:induction false} SplitFirst(a: string, sep: char, b: string)
    requires sep !in a
    ensures Split(a + [sep] + b, sep) == [a] + Split(b, sep)
  {
    if a == [] {
      assert (a + [sep] + b)[1..] == b;
    } else {
      assert (a + [sep] + b)[1..] == a[1..] + [sep] + b;
      SplitFirst(a[1..], sep, b);
      assert [a[0]] + a[1..] == a;
    }
  }

  /** What `%d` matches: 01 to 31, a single digit 1 to 9, or a blank and a digit 1 to 9. */
  predicate DayToken(t: string)
  {
    (|t| == 2 && AllDigits(t) && 1 <= DigitsValue(t) <= 31)
    || (|t| == 1 && '1' <= t[0] <= '9')
    || (|t| == 2 && t[0] == ' ' && '1' <= t[1] <= '9')
  }

  /** What `%m` matches: 01 to 12, or a single digit 1 to 9. */
  predicate MonthToken(t: string)
  {
    (|t| == 2 && AllDigits(t) && 1 <= DigitsValue(t) <= 12)
    || (|t| == 1 && '1' <= t[0] <= '9')
  }

  /** What `%Y` matches: exactly four digits. */
  predicate YearToken(t: string)
  {
    |t| == 4 && AllDigits(t)
  }

  /** The number a day or month token stands for. */
  function TokenValue(t: string): (n: nat)
    requires DayToken(t) || MonthToken(t)
    ensures DayToken(t) ==> 1 <= n <= 31
    ensures MonthToken(t) ==> 1 <= n <= 12
  {
    if |t| == 1 then DigitValue(t[0])
    else if t[0] == ' ' then DigitValue(t[1])
    else DigitsValue(t)
  }

  /** `datetime.strptime(v, fmt)` for '%d/%m/%Y' (`dayFirst`, separator '/') and
      '%Y-%m-%d' (separator '-'); `None` where it raises `ValueError`: the text does
      not match the format, or the day does not exist in that month. */
  function StrpTime(v: string, sep: char, dayFirst: bool): (r: Option<DateTime>)
    ensures r.Some? ==> r.value.seconds == 0.0
  {
    var parts := Split(v, sep);
    if |parts| != 3 then None
    else
      var dt, mt, yt := if dayFirst then parts[0] else parts[2], parts[1], if dayFirst then parts[2] else parts[0];
      if DayToken(dt) && MonthToken(mt) && YearToken(yt) then
        var d, m, y := TokenValue(dt), TokenValue(mt), DigitsValue(yt);
        if ValidDate(y, m, d) then Some(DateTimeValue(y, m, d, 0.0)) else None
      else None
  }

  /** `converter_data(valor)`: a timestamp as it is; a text, stripped, as dd/mm/yyyy
      when it contains '/', else as yyyy-mm-dd when it contains '-', else nothing; an
      Excel serial number through pandas; a parse error gives `None`. */
  function ConverterData(rt: Runtime, c: Cell): (r: Option<DateTime>)
    ensures c.Missing? ==> r.None?
    ensures c.Stamp? ==> r == Some(c.t)
    ensures c.PyDateTime? ==> r.None?
    ensures c.Num? ==> r == rt.excelDate(c.x)
    ensures c.Text? && '/' in Strip(c.s) ==> r == StrpTime(Strip(c.s), '/', true)
    ensures c.Text? && '/' !in Strip(c.s) && '-' in Strip(c.s) ==> r == StrpTime(Strip(c.s), '-', false)
    ensures c.Text? && '/' !in Strip(c.s) && '-' !in Strip(c.s) ==> r.None?
  {
    match c
    case Missing => None
    case Stamp(t) => Some(t)
    case PyDateTime(_) => None
    case Num(x) => rt.excelDate(x)
    case Text(s) =>
      var v := Strip(s);
      if '/' in v then StrpTime(v, '/', true)
      else if '-' in v then StrpTime(v, '-', false)
      else None
  }

  /** `formatar_data_br(data)`: `strftime('%d/%m/%Y')`, with `%Y` unpadded as the C
      library prints years below 1000; `None` stays `None`. */
  function FormatarDataBr(data: Option<DateTime>): (r: Option<string>)
    ensures r.None? <==> data.None?
    ensures r.Some? ==> |r.value| >= 7 && r.value[2] == '/' && r.value[5] == '/'
  {
    match data
    case None => None
    case Some(d) => Some(Pad2(d.day) + "/" + Pad2(d.month) + "/" + NatString(d.year))
  }

  /** A string of digits holds no date separator. */
  lemma DigitsHaveNoSeparator(t: string)
    requires AllDigits(t)
    ensures '/' !in t && '-' !in t
  {
  }

  /** Three separator-free pieces joined by the separator split back into themselves. */
  lemma SplitThree(a: string, b: string, c: string, sep: char)
    requires sep !in a && sep !in b && sep !in c
    ensures Split(a + [sep] + b + [sep] + c, sep) == [a, b, c]
  {
    SplitNone(c, sep);
    SplitFirst(b, sep, c);
    assert a + [sep] + b + [sep] + c == a + [sep] + (b + [sep] + c);
    SplitFirst(a, sep, b + [sep] + c);
  }

  /** The pieces `formatar_data_br` prints for a date with a four-digit year are tokens
      `strptime` reads back as the day, month and year. */
  lemma PrintedTokens(d: DateTime)
    requires 1000 <= d.year
    ensures DayToken(Pad2(d.day)) && TokenValue(Pad2(d.day)) == d.day
    ensures MonthToken(Pad2(d.month)) && TokenValue(Pad2(d.month)) == d.month
    ensures YearToken(NatString(d.year)) && DigitsValue(NatString(d.year)) == d.year
  {
    NatStringLength(d.year);
    NatStringValue(d.year);
  }

  /** `strptime` with '%d/%m/%Y' reads the printed pieces back as the date. */
  lemma ReadPrinted(d: DateTime)
    requires d.seconds == 0.0 && 1000 <= d.year
    ensures StrpTime(Pad2(d.day) + ['/'] + Pad2(d.month) + ['/'] + NatString(d.year), '/', true) == Some(d)
  {
    var dd, mm, yy := Pad2(d.day), Pad2(d.month), NatString(d.year);
    DigitsHaveNoSeparator(dd);
    DigitsHaveNoSeparator(mm);
    DigitsHaveNoSeparator(yy);
    SplitThree(dd, mm, yy, '/');
    PrintedTokens(d);
  }

  /** A text that starts and ends with a digit is its own strip. */
  lemma StripDigitEnds(s: string)
    requires s != [] && IsDigit(s[0]) && IsDigit(s[|s| - 1])
    ensures Strip(s) == s
  {
    assert !IsSpace(s[0]);
    assert TrimStart(s) == s;
    assert !IsSpace(s[|s| - 1]);
  }

  /** Digits, '/', digits, '/', digits: already stripped, and it contains '/'. */
  lemma PrintedIsStripped(dd: string, mm: string, yy: string)
    requires |dd| == 2 && AllDigits(dd) && |yy| >= 1 && AllDigits(yy)
    ensures var s := dd + ['/'] + mm + ['/'] + yy; Strip(s) == s && '/' in s
  {
    var s := dd + ['/'] + mm + ['/'] + yy;
    assert s[0] == dd[0] && s[|s| - 1] == yy[|yy| - 1] && s[2] == '/';
    StripDigitEnds(s);
  }

  /** A stripped text with a '/' is read as dd/mm/yyyy. */
  lemma SlashTextIsDayFirst(rt: Runtime, s: string)
    requires Strip(s) == s && '/' in s
    ensures ConverterData(rt, Text(s)) == StrpTime(s, '/', true)
  {
  }

  /** Round trip: reading back what `formatar_data_br` printed gives the date again,
      for a midnight date with a four-digit year. */
  lemma DateRoundTrip(rt: Runtime, d: DateTime)
    requires d.seconds == 0.0 && 1000 <= d.year
    ensures ConverterData(rt, Text(FormatarDataBr(Some(d)).value)) == Some(d)
  {
    var s := Pad2(d.day) + ['/'] + Pad2(d.month) + ['/'] + NatString(d.year);
    assert FormatarDataBr(Some(d)).value == s;
    NatStringLength(d.year);
    PrintedIsStripped(Pad2(d.day), Pad2(d.month), NatString(d.year));
    SlashTextIsDayFirst(rt, s);
    ReadPrinted(d);
  }

  // ------------------------------------------------------------ determinar_status

  const Energizada: string := "Energizada"
  const Concluida: string := "Concluída"
  const EmAndamento: string := "Em Andamento"
  const Programada: string := "Programada"

  /** The fallback of `determinar_status`, from progress alone. */
  function StatusByProgress(progresso: int): (s: string)
    ensures s == Concluida <==> progresso >= 100
    ensures s == EmAndamento <==> 0 < progresso < 100
    ensures s == Programada <==> progresso <= 0
  {
    if progresso >= 100 then Concluida
    else if progresso > 0 then EmAndamento
    else Programada
  }

  /** `determinar_status(data_inicio, data_termino, progresso, anotacoes)`, with
      `datetime.now()` passed in as `now`; the result is the status and the
      energised flag. */
  function DeterminarStatus(inicio: Option<DateTime>, termino: Option<DateTime>, progresso: int,
                            anotacoes: string, now: DateTime): (r: (string, bool))
    ensures r.1 <==> Contains(Upper(anotacoes), "ENERGIZADA")
    ensures r.1 <==> r.0 == Energizada
    ensures r.0 in {Energizada, Concluida, EmAndamento, Programada}
    ensures !r.1 && inicio.None? && termino.None? ==> r.0 == StatusByProgress(progresso)
    ensures !r.1 && termino.Some? && Before(termino.value, Midnight(now)) ==> r.0 == Concluida
    ensures (!r.1 && inicio.Some? && Before(Midnight(now), inicio.value)
             && !(termino.Some? && Before(termino.value, Midnight(now)))) ==> r.0 == Programada
    ensures (!r.1 && inicio.Some? && !Before(Midnight(now), inicio.value)
             && !(termino.Some? && Before(termino.value, Midnight(now)))) ==> r.0 == EmAndamento
    ensures !r.1 && inicio.None? && termino.Some? && !Before(termino.value, Midnight(now))
      ==> r.0 == StatusByProgress(progresso)
  {
    var hoje := Midnight(now);
    var isEnergizada := anotacoes != "" && Contains(Upper(anotacoes), "ENERGIZADA");
    if isEnergizada then (Energizada, true)
    else if inicio.None? && termino.None? then (StatusByProgress(progresso), false)
    else if termino.Some? && Before(termino.value, hoje) then (Concluida, false)
    else if inicio.Some? && Before(hoje, inicio.value) then (Programada, false)
    else if inicio.Some? && !Before(hoje, inicio.value)
      && (termino.None? || !Before(termino.value, hoje)) then (EmAndamento, false)
    else (StatusByProgress(progresso), false)
  }

  // --------------------------------------------------- the row mapping of the sheet

  /** Python's `round(x)` to an integer: to the nearest, halves to the even neighbour. */
  function RoundHalfEven(x: real): (n: int)
    ensures -0.5 <= n as real - x <= 0.5
    ensures n as real - x == 0.5 || x - n as real == 0.5 ==> n % 2 == 0
  {
    var f := x.Floor;
    var frac := x - f as real;
    if frac < 0.5 then f
    else if frac > 0.5 then f + 1
    else if f % 2 == 0 then f else f + 1
  }

  /** `progresso`: 0 without planned poles, otherwise the rounded percentage of poles
      set, capped at 100. */
  function Progresso(previstos: int, implantados: int): (p: int)
    ensures p <= 100
    ensures previstos <= 0 ==> p == 0
    ensures previstos > 0 && implantados >= 0 ==> p >= 0
    ensures previstos > 0 && implantados >= previstos ==> p == 100
    ensures previstos > 0 && p < 100 ==>
      -0.5 <= p as real - implantados as real / previstos as real * 100.0 <= 0.5
  {
    if previstos > 0 then
      var pct := implantados as real / previstos as real * 100.0;
      var r := RoundHalfEven(pct);
      assert implantados >= previstos ==> implantados as real / previstos as real >= 1.0;
      assert implantados >= 0 ==> implantados as real / previstos as real >= 0.0;
      if r < 100 then r else 100
    else 0
  }

  /** The object `processar_planilha` builds for one row. */
  datatype Obra = Obra(
    id: int,
    encarregado: string,
    supervisor: string,
    projeto: string,
    cliente: string,
    localidade: string,
    criterio: string,
    anotacoes: string,
    postesPrevistos: int,
    dataInicio: string,
    dataTermino: string,
    prazo: string,
    obraSemana: string,
    necessidade: string,
    programacaoLv: string,
    cavasRealizadas: int,
    postesImplantados: int,
    latitude: Option<real>,
    longitude: Option<real>,
    hasCoordinates: bool,
    clientesPrevistos: int,
    projetoKit: string,
    projetoMedidor: string,
    arCoelba: string,
    dataVisitaPrevia: string,
    observacaoVisita: string,
    analisePreFechamento: string,
    dataSolicitacaoReserva: string,
    progresso: int,
    isEnergizada: bool,
    status: string)

  /** The number of columns the row mapping reads (`row.iloc[0]` to `row.iloc[24]`). */
  const Columns: nat := 25

  /** `limpar_valor(row.iloc[k]) or fallback`. */
  function Field(rt: Runtime, row: seq<Cell>, k: nat, fallback: string): string
    requires k < |row|
  {
    match LimparValor(rt, row[k])
    case Some(v) => v
    case None => fallback
  }

  /** `int(converter_numero(row.iloc[k]))`. */
  function Count(rt: Runtime, row: seq<Cell>, k: nat): int
    requires k < |row|
  {
    Trunc(ConverterNumero(rt, row[k], 0.0))
  }

  /** `formatar_data_br(d) or ''`. */
  function DateText(d: Option<DateTime>): string
  {
    match FormatarDataBr(d)
    case Some(s) => s
    case None => ""
  }

  /** The body of the loop of `processar_planilha` for the row at `index`: `None`
      where the row is skipped, because its project cell is empty or because reading
      a column the row does not have raises and the handler moves on. */
  function ObraOf(rt: Runtime, now: DateTime, index: nat, row: seq<Cell>): (o: Option<Obra>)
    ensures o.Some? <==> |row| >= Columns && LimparValor(rt, row[2]).Some?
    ensures o.Some? ==> o.value.id == index + 1 && o.value.projeto != ""
    ensures o.Some? ==> o.value.progresso <= 100
    ensures o.Some? ==> (o.value.isEnergizada <==> o.value.status == Energizada)
    ensures o.Some? ==> o.value.status in {Energizada, Concluida, EmAndamento, Programada}
    ensures o.Some? ==> o.value.progresso == Progresso(Count(rt, row, 7), Count(rt, row, 14))
    ensures o.Some? ==> o.value.anotacoes == Field(rt, row, 6, "")
    ensures o.Some? ==>
      (o.value.status, o.value.isEnergizada)
        == DeterminarStatus(ConverterData(rt, row[8]), ConverterData(rt, row[9]),
                            o.value.progresso, o.value.anotacoes, now)
    ensures o.Some? ==>
      o.value.latitude == ConverterCoordenada(rt, row[15])
      && o.value.longitude == ConverterCoordenada(rt, row[16])
    ensures o.Some? ==> (o.value.hasCoordinates <==> ValidarCoordenadas(o.value.latitude, o.value.longitude))
    ensures o.Some? ==> o.value.criterio == Field(rt, row, 5, "") && o.value.necessidade == Field(rt, row, 11, "")
  {
    if |row| < Columns then None
    else match LimparValor(rt, row[2])
      case None => None
      case Some(projeto) =>
        var anotacoes := Field(rt, row, 6, "");
        var previstos := Count(rt, row, 7);
        var implantados := Count(rt, row, 14);
        var inicio := ConverterData(rt, row[8]);
        var termino := ConverterData(rt, row[9]);
        var latitude := ConverterCoordenada(rt, row[15]);
        var longitude := ConverterCoordenada(rt, row[16]);
        var progresso := Progresso(previstos, implantados);
        var status := DeterminarStatus(inicio, termino, progresso, anotacoes, now);
        Some(Obra(
          id := index + 1,
          encarregado := Field(rt, row, 0, "N/A"),
          supervisor := Field(rt, row, 1, "N/A"),
          projeto := projeto,
          cliente := Field(rt, row, 3, "N/A"),
          localidade := Field(rt, row, 4, "N/A"),
          criterio := Field(rt, row, 5, ""),
          anotacoes := anotacoes,
          postesPrevistos := previstos,
          dataInicio := DateText(inicio),
          dataTermino := DateText(termino),
          prazo := DateText(termino),
          obraSemana := Field(rt, row, 10, ""),
          necessidade := Field(rt, row, 11, ""),
          programacaoLv := Field(rt, row, 12, ""),
          cavasRealizadas := Count(rt, row, 13),
          postesImplantados := implantados,
          latitude := latitude,
          longitude := longitude,
          hasCoordinates := latitude.Some? && longitude.Some? && ValidarCoordenadas(latitude, longitude),
          clientesPrevistos := Count(rt, row, 17),
          projetoKit := Field(rt, row, 18, ""),
          projetoMedidor := Field(rt, row, 19, ""),
          arCoelba := Field(rt, row, 20, "N/A"),
          dataVisitaPrevia := Field(rt, row, 21, ""),
          observacaoVisita := Field(rt, row, 22, ""),
          analisePreFechamento := Field(rt, row, 23, ""),
          dataSolicitacaoReserva := Field(rt, row, 24, ""),
          progresso := progresso,
          isEnergizada := status.1,
          status := status.0))
  }

  /** A served obra has coordinates exactly when both coordinate cells convert and
      the latitude lies in [-90, 90]. */
  lemma ObraCoordinates(rt: Runtime, now: DateTime, index: nat, row: seq<Cell>)
    requires ObraOf(rt, now, index, row).Some?
    ensures var lat, lng := ConverterCoordenada(rt, row[15]), ConverterCoordenada(rt, row[16]);
      (ObraOf(rt, now, index, row).value.hasCoordinates
       <==> lat.Some? && lng.Some? && -90.0 <= lat.value <= 90.0)
  {
    CoordinatesValidIffLatitudeInRange(rt, row[15], row[16]);
  }

  /** The obra of a row as a sequence of zero or one elements. */
  function Emitted(o: Option<Obra>): seq<Obra>
  {
    match o
    case Some(x) => [x]
    case None => []
  }

  /** The obras of the rows, one per row that is not skipped, in row order. */
  function Obras(rt: Runtime, now: DateTime, rows: seq<seq<Cell>>): seq<Obra>
  {
    if rows == [] then []
    else
      var n := |rows| - 1;
      Obras(rt, now, rows[..n]) + Emitted(ObraOf(rt, now, n, rows[n]))
  }

  /** `processar_planilha` after the sheet is read: the loop over the rows,
      appending the obra of every row not skipped. */
  method ProcessarPlanilha(rt: Runtime, now: DateTime, rows: seq<seq<Cell>>) returns (obras: seq<Obra>)
    ensures obras == Obras(rt, now, rows)
  {
    obras := [];
    var index := 0;
    while index < |rows|
      invariant 0 <= index <= |rows|
      invariant obras == Obras(rt, now, rows[..index])
    {
      var obra := ObraOf(rt, now, index, rows[index]);
      assert rows[..index + 1][..index] == rows[..index];
      if obra.Some? {
        obras := obras + [obra.value];
      }
      index := index + 1;
    }
    assert rows[..|rows|] == rows;
  }

  /** What every emitted obra satisfies: a project, a progress of at most 100, one
      of the four statuses, and the energised flag set exactly for 'Energizada'. */
  predicate WellFormedObra(o: Obra)
  {
    o.projeto != "" && o.progresso <= 100
    && o.status in {Energizada, Concluida, EmAndamento, Programada}
    && (o.isEnergizada <==> o.status == Energizada)
  }

  /** Every obra is well formed, and there are no more obras than rows. */
  lemma {:induction false} ObrasFields(rt: Runtime, now: DateTime, rows: seq<seq<Cell>>)
    ensures |Obras(rt, now, rows)| <= |rows|
    ensures forall o :: o in Obras(rt, now, rows) ==> WellFormedObra(o)
  {
    if rows != [] {
      var n := |rows| - 1;
      ObrasFields(rt, now, rows[..n]);
      EmittedWellFormed(rt, now, n, rows[n]);
      WellFormedAppend(Obras(rt, now, rows[..n]), Emitted(ObraOf(rt, now, n, rows[n])));
    }
  }

  /** The obra a row emits, if any, is well formed. */
  lemma EmittedWellFormed(rt: Runtime, now: DateTime, index: nat, row: seq<Cell>)
    ensures var e := Emitted(ObraOf(rt, now, index, row));
      |e| <= 1 && forall o :: o in e ==> WellFormedObra(o)
  {
  }

  /** Appending well-formed obras to well-formed obras. */
  lemma WellFormedAppend(prev: seq<Obra>, e: seq<Obra>)
    requires forall o :: o in prev ==> WellFormedObra(o)
    requires forall o :: o in e ==> WellFormedObra(o)
    ensures forall o :: o in prev + e ==> WellFormedObra(o)
  {
  }

  /** A row emits at most one obra, whose id is the row's index plus one. */
  lemma EmittedId(rt: Runtime, now: DateTime, index: nat, row: seq<Cell>)
    ensures var e := Emitted(ObraOf(rt, now, index, row));
      |e| <= 1 && (|e| == 1 ==> e[0].id == index + 1)
  {
  }

  /** Ids in 1..bound, strictly increasing along the list. */
  predicate IdsWithin(os: seq<Obra>, bound: nat)
  {
    (forall i :: 0 <= i < |os| ==> 1 <= os[i].id <= bound)
    && (forall i, j :: 0 <= i < j < |os| ==> os[i].id < os[j].id)
  }

  /** Appending at most one obra whose id is one past the bound keeps the ids ordered. */
  lemma IdsAppend(prev: seq<Obra>, e: seq<Obra>, n: nat)
    requires IdsWithin(prev, n)
    requires |e| <= 1 && (|e| == 1 ==> e[0].id == n + 1)
    ensures IdsWithin(prev + e, n + 1)
  {
    var os := prev + e;
    forall i | 0 <= i < |os| ensures 1 <= os[i].id <= n + 1 {
      if i < |prev| {
        assert os[i] == prev[i];
      } else {
        assert os[i] == e[0];
      }
    }
    forall i, j | 0 <= i < j < |os| ensures os[i].id < os[j].id {
      assert os[i] == prev[i];
      if j < |prev| {
        assert os[j] == prev[j];
      } else {
        assert os[j] == e[0];
      }
    }
  }

  /** Every obra's id lies between 1 and the number of rows, and ids strictly increase
      along the list, so no two obras share one. */
  lemma {:induction false} ObrasIds(rt: Runtime, now: DateTime, rows: seq<seq<Cell>>)
    ensures IdsWithin(Obras(rt, now, rows), |rows|)
  {
    if rows != [] {
      var n := |rows| - 1;
      ObrasIds(rt, now, rows[..n]);
      EmittedId(rt, now, n, rows[n]);
      IdsAppend(Obras(rt, now, rows[..n]), Emitted(ObraOf(rt, now, n, rows[n])), n);
    }
  }

  /** A row whose project cell is empty contributes nothing. */
  lemma SkipsRowsWithoutProject(rt: Runtime, now: DateTime, rows: seq<seq<Cell>>, row: seq<Cell>)
    requires |row| > 2 && LimparValor(rt, row[2]).None?
    ensures Obras(rt, now, rows + [row]) == Obras(rt, now, rows)
  {
    assert (rows + [row])[..|rows|] == rows;
  }
}
